/** The fileWriter steps, and the tokens a flush or shutdown sends, keep the pipeline invariant. */
module PipelineFiles {
  import opened Base
  import opened Stamp
  import opened LocMap
  import opened Pipeline
  import opened PipelineWriters

  // ---------------------------------------------------------------- counting tokens

  lemma {:induction false} WLeftBounds(tok: seq<WTok>)
    ensures WLeft(tok) <= |tok|
    ensures WLeft(tok) == 0 <==> forall w :: 0 <= w < |tok| ==> tok[w].WDone?
    ensures (forall w :: 0 <= w < |tok| ==> !tok[w].WDone?) ==> WLeft(tok) == |tok|
  {
    if tok != [] {
      var front := tok[..|tok| - 1];
      WLeftBounds(front);
      assert forall w :: 0 <= w < |front| ==> front[w] == tok[w];
      if WLeft(tok) == 0 {
        forall w | 0 <= w < |tok| ensures tok[w].WDone? {
          if w < |front| { assert front[w].WDone?; }
        }
      }
    }
  }

  /** Receiving one more token counts down by one. */
  lemma {:induction false} WLeftUpdate(tok: seq<WTok>, w: nat, x: WTok)
    requires w < |tok|
    ensures WLeft(tok[w := x]) + (if tok[w].WDone? then 0 else 1) == WLeft(tok) + (if x.WDone? then 0 else 1)
  {
    var n := |tok| - 1;
    if w == n {
      assert tok[w := x][..n] == tok[..n];
    } else {
      assert tok[w := x][..n] == tok[..n][w := x];
      WLeftUpdate(tok[..n], w, x);
    }
  }

  lemma {:induction false} CLeftBounds(tok: seq<CTok>)
    ensures CLeft(tok) <= |tok|
    ensures CLeft(tok) == 0 <==> forall j :: 0 <= j < |tok| ==> tok[j].CDone?
    ensures (forall j :: 0 <= j < |tok| ==> !tok[j].CDone?) ==> CLeft(tok) == |tok|
  {
    if tok != [] {
      var front := tok[..|tok| - 1];
      CLeftBounds(front);
      assert forall j :: 0 <= j < |front| ==> front[j] == tok[j];
      if CLeft(tok) == 0 {
        forall j | 0 <= j < |tok| ensures tok[j].CDone? {
          if j < |front| { assert front[j].CDone?; }
        }
      }
    }
  }

  lemma {:induction false} CLeftUpdate(tok: seq<CTok>, j: nat, x: CTok)
    requires j < |tok|
    ensures CLeft(tok[j := x]) + (if tok[j].CDone? then 0 else 1) == CLeft(tok) + (if x.CDone? then 0 else 1)
  {
    var n := |tok| - 1;
    if j == n {
      assert tok[j := x][..n] == tok[..n];
    } else {
      assert tok[j := x][..n] == tok[..n][j := x];
      CLeftUpdate(tok[..n], j, x);
    }
  }

  lemma FreshDrainTokens(c: Config, mode: Mode, clock: nat, open: Option<nat>, nf: nat, nlog: nat)
    requires c.workers >= 1 && (mode.Draining? ==> mode.mark <= nlog)
    ensures TokensOk(c, FreshDrain(c), mode, clock, open, nf, nlog)
  {
    WLeftBounds(FreshDrain(c).wtok);
    CLeftBounds(FreshDrain(c).ctok);
  }

  /** Steps that change only mode, drain, clock, open and what is on disk leave these parts alone. */
  lemma PlainFrame(c: Config, s: State, s': State)
    requires Core(c, s)
    requires s' == s.(mode := s'.mode, drain := s'.drain, clock := s'.clock, open := s'.open, disk := s'.disk,
                      closing := s'.closing)
    ensures PlacesOk(s')
  {
    forall n: nat ensures PlaceOk(s', n) { assert PlaceOk(s, n); }
  }

  lemma StartDrainOk(c: Config, s: State, shutdown: bool)
    requires Core(c, s) && StartDrainGuard(c, s)
    ensures Core(c, s.(mode := Draining(shutdown, |s.log|), drain := FreshDrain(c)))
  {
    var s' := s.(mode := Draining(shutdown, |s.log|), drain := FreshDrain(c));
    FreshDrainTokens(c, s'.mode, s.clock, s.open, |s.files|, |s.log|);
    PlainFrame(c, s, s');
    forall n: nat ensures AheadOfToken(s'.place, s'.mode, s'.drain, s'.blocks, s'.tbs, s'.tocChan, n) {
      assert PlaceOk(s, n);
      if n < |s.place| && s.place[n].InMem? {
        assert BlockShape(c, s.blocks, s.clock, s.open, |s.files|, s.place[n].b);
      }
    }
    forall n: nat | n < s'.flushed ensures SafeAt(s', n) { assert SafeAt(s, n); }
  }

  /** Later stamps do not disturb blocks already waiting. */
  lemma ClockForward(c: Config, s: State, clock: nat)
    requires BlocksShape(c, s.blocks, s.clock, s.open, |s.files|) && s.clock <= clock
    ensures BlocksShape(c, s.blocks, clock, s.open, |s.files|)
  {
    forall x: nat ensures BlockShape(c, s.blocks, clock, s.open, |s.files|, x) {
      assert BlockShape(c, s.blocks, s.clock, s.open, |s.files|, x);
    }
  }

  lemma WriterTokenOk(c: Config, s: State, w: nat)
    requires Core(c, s) && WriterTokenGuard(c, s, w)
    ensures Core(c, s.(drain := s.drain.(wtok := s.drain.wtok[w := WSent(s.clock)]), clock := s.clock + 1))
  {
    var s' := s.(drain := s.drain.(wtok := s.drain.wtok[w := WSent(s.clock)]), clock := s.clock + 1);
    WLeftUpdate(s.drain.wtok, w, WSent(s.clock));
    ClockForward(c, s, s'.clock);
    PlainFrame(c, s, s');
    assert Phase1(s'.drain);
    forall n: nat ensures AheadOfToken(s'.place, s'.mode, s'.drain, s'.blocks, s'.tbs, s'.tocChan, n) {
      assert AheadOfToken(s.place, s.mode, s.drain, s.blocks, s.tbs, s.tocChan, n);
      assert PlaceOk(s, n);
      if n < |s.place| && s.place[n].InMem? {
        assert BlockShape(c, s.blocks, s.clock, s.open, |s.files|, s.place[n].b);
      }
    }
    forall n: nat | n < s'.flushed ensures SafeAt(s', n) { assert SafeAt(s, n); }
  }

  // ---------------------------------------------------------------- value files

  /** Locations and blocks stay right as files grow. */
  lemma FilesGrowFrame(c: Config, s: State, s': State)
    requires Core(c, s) && FilesGrow(s.files, s'.files)
    requires s'.loc == s.loc && s'.log == s.log && s'.place == s.place && s'.writers == s.writers
    requires |s'.blocks| == |s.blocks|
    requires forall b :: 0 <= b < |s.blocks| ==> s'.blocks[b].recs == s.blocks[b].recs
    ensures LocsOk(s'.loc, s'.log, s'.place, s'.files, s'.blocks, s'.writers)
  {
    forall k ensures LocOk(s'.loc, s'.log, s'.place, s'.files, s'.blocks, s'.writers, k) {
      assert LocOk(s.loc, s.log, s.place, s.files, s.blocks, s.writers, k);
      if k in s.loc && s.loc[k].id.File? {
        var f := s.loc[k].id.f;
        SlicePrefix(s.files[f], s'.files[f], |s.files[f]|, s.loc[k].off, s.loc[k].off + s.loc[k].len);
      }
    }
  }

  lemma OpenFileOk(c: Config, s: State, header: Bytes)
    requires Core(c, s) && OpenFileGuard(c, s, header)
    ensures Core(c, ApplyOpenFile(s, header))
  {
    var s' := ApplyOpenFile(s, header);
    assert FilesGrow(s.files, s'.files);
    FilesGrowFrame(c, s, s');
    AllRecsGrow(s, s');
    forall x: nat ensures BlockShape(c, s'.blocks, s'.clock, s'.open, |s'.files|, x) {
      assert BlockShape(c, s.blocks, s.clock, s.open, |s.files|, x);
    }
    forall x: nat ensures BlockInFile(s'.blocks, s'.files, x) { assert BlockInFile(s.blocks, s.files, x); }
    forall n: nat ensures PlaceOk(s', n) { assert PlaceOk(s, n); }
    forall n: nat | n < s'.flushed ensures SafeAt(s', n) { assert SafeAt(s, n); }
  }

  lemma WriteBlockKeepsFiles(c: Config, s: State, b: nat)
    requires Core(c, s) && WriteBlockGuard(c, s, b)
    ensures var s' := ApplyWriteBlock(s, b);
            && Shape(c, s')
            && FilesOk(s'.files)
            && BlocksInFile(s'.blocks, s'.files)
            && FilesGrow(s.files, s'.files)
  {
    var s' := ApplyWriteBlock(s, b);
    var f := s.open.value;
    forall x: nat ensures WriterShape(s'.writers, s'.blocks, x) { assert WriterShape(s.writers, s.blocks, x); }
    forall x: nat ensures BlockShape(c, s'.blocks, s'.clock, s'.open, |s'.files|, x) {
      assert BlockShape(c, s.blocks, s.clock, s.open, |s.files|, x);
    }
    forall x: nat ensures BlockInFile(s'.blocks, s'.files, x) {
      assert BlockInFile(s.blocks, s.files, x);
      if x != b && x < |s.blocks| && Filed(s.blocks[x].owner) {
        var blk := s.blocks[x];
        SlicePrefix(s.files[blk.file], s'.files[blk.file], |s.files[blk.file]|, blk.foff, blk.foff + |blk.values|);
      }
    }
  }

  lemma WriteBlockOk(c: Config, s: State, b: nat)
    requires Core(c, s) && WriteBlockGuard(c, s, b)
    ensures Core(c, ApplyWriteBlock(s, b))
  {
    var s' := ApplyWriteBlock(s, b);
    WriteBlockKeepsFiles(c, s, b);
    FilesGrowFrame(c, s, s');
    AllRecsGrow(s, s');
    WriteBlockKeepsMem(c, s, b);
    forall n: nat ensures PlaceOk(s', n) { assert PlaceOk(s, n); }
    forall n: nat ensures AheadOfToken(s'.place, s'.mode, s'.drain, s'.blocks, s'.tbs, s'.tocChan, n) {
      assert AheadOfToken(s.place, s.mode, s.drain, s.blocks, s.tbs, s.tocChan, n);
    }
    forall n: nat | n < s'.flushed ensures SafeAt(s', n) { assert SafeAt(s, n); }
  }

  lemma WriteBlockKeepsMem(c: Config, s: State, b: nat)
    requires Core(c, s) && WriteBlockGuard(c, s, b)
    ensures var s' := ApplyWriteBlock(s, b);
            && MemRecsOk(s'.blocks, s'.writers, s'.log, s'.place)
            && PcsOk(s'.writers, s'.blocks, s'.log, s'.place)
            && ReadersOk(s'.readers, s'.log, s'.blocks, s'.writers)
  {
    var s' := ApplyWriteBlock(s, b);
    forall x: nat, i: nat ensures MemRecOk(s'.blocks, s'.writers, s'.log, s'.place, x, i) {
      assert MemRecOk(s.blocks, s.writers, s.log, s.place, x, i);
    }
    forall x: nat ensures PcOk(s'.writers, s'.blocks, s'.log, s'.place, x) {
      assert PcOk(s.writers, s.blocks, s.log, s.place, x);
    }
    forall r | 0 <= r < |s'.readers| ensures ReaderOk(s'.readers[r], s'.log, s'.blocks, s'.writers) {
      assert ReaderOk(s.readers[r], s.log, s.blocks, s.writers);
    }
  }

  lemma ReleaseOk(c: Config, s: State, b: nat, j: nat)
    requires Core(c, s) && ReleaseGuard(c, s, b, j)
    ensures Core(c, SetOwner(s, b, InClearChan(j, s.clock)).(clock := s.clock + 1))
  {
    var s' := SetOwner(s, b, InClearChan(j, s.clock)).(clock := s.clock + 1);
    forall x: nat ensures WriterShape(s'.writers, s'.blocks, x) { assert WriterShape(s.writers, s.blocks, x); }
    forall x: nat ensures BlockShape(c, s'.blocks, s'.clock, s'.open, |s'.files|, x) {
      assert BlockShape(c, s.blocks, s.clock, s.open, |s.files|, x);
    }
    forall x: nat, i: nat ensures MemRecOk(s'.blocks, s'.writers, s'.log, s'.place, x, i) {
      assert MemRecOk(s.blocks, s.writers, s.log, s.place, x, i);
    }
    OwnerOnly(c, s, s', b, InClearChan(j, s.clock));
    forall n: nat ensures AheadOfToken(s'.place, s'.mode, s'.drain, s'.blocks, s'.tbs, s'.tocChan, n) {
      assert AheadOfToken(s.place, s.mode, s.drain, s.blocks, s.tbs, s.tocChan, n);
    }
  }

  /** Bytes reaching the disk. */
  lemma DiskStepOk(c: Config, s: State, n: nat, closing: bool)
    requires Core(c, s) && s.open.Some?
    ensures Core(c, ApplyDisk(s, n, closing))
  {
    var s' := ApplyDisk(s, n, closing);
    PlainFrame(c, s, s');
    forall n: nat | n < s'.flushed ensures SafeAt(s', n) { assert SafeAt(s, n); }
  }

  lemma CloseFileOk(c: Config, s: State)
    requires Core(c, s) && CloseFileGuard(c, s)
    ensures Core(c, s.(open := None, closing := false))
  {
    var s' := s.(open := None, closing := false);
    forall x: nat ensures BlockShape(c, s'.blocks, s'.clock, s'.open, |s'.files|, x) {
      assert BlockShape(c, s.blocks, s.clock, s.open, |s.files|, x);
    }
    PlainFrame(c, s, s');
    forall n: nat | n < s'.flushed ensures SafeAt(s', n) { assert SafeAt(s, n); }
  }

  // ---------------------------------------------------------------- fileWriter's countdown

  /** The token at the head of the channel follows every covered block its writer sent. */
  lemma FileTokenAhead(c: Config, s: State, w: nat, n: nat)
    requires Core(c, s) && FileTokenGuard(c, s, w) && s.drain.wleft != 1
    ensures var s' := ApplyFileToken(c, s, w);
            AheadOfToken(s'.place, s'.mode, s'.drain, s'.blocks, s'.tbs, s'.tocChan, n)
  {
    assert AheadOfToken(s.place, s.mode, s.drain, s.blocks, s.tbs, s.tocChan, n);
  }

  /** After the last token no covered record is upstream of the memClearers. */
  lemma LastFileTokenAhead(c: Config, s: State, w: nat, n: nat)
    requires Core(c, s) && FileTokenGuard(c, s, w) && s.drain.wleft == 1
    requires forall x :: 0 <= x < c.workers && x != w ==> s.drain.wtok[x].WDone?
    ensures var s' := ApplyFileToken(c, s, w);
            AheadOfToken(s'.place, s'.mode, s'.drain, s'.blocks, s'.tbs, s'.tocChan, n)
  {
    var s' := ApplyFileToken(c, s, w);
    assert AheadOfToken(s.place, s.mode, s.drain, s.blocks, s.tbs, s.tocChan, n);
    assert PlaceOk(s, n);
    if n < |s.place| && s.place[n].InMem? {
      assert BlockShape(c, s.blocks, s.clock, s.open, |s.files|, s.place[n].b);
    }
  }

  /** The countdown stands at one exactly when every other memWriter's token was received. */
  lemma LastToken(tok: seq<WTok>, w: nat)
    requires w < |tok| && !tok[w].WDone?
    ensures WLeft(tok) >= 1 && WLeft(tok[w := WDone]) == WLeft(tok) - 1
    ensures WLeft(tok) == 1 <==> forall x :: 0 <= x < |tok| && x != w ==> tok[x].WDone?
  {
    var tok' := tok[w := WDone];
    WLeftUpdate(tok, w, WDone);
    WLeftBounds(tok');
    if WLeft(tok) == 1 {
      forall x | 0 <= x < |tok| && x != w ensures tok[x].WDone? { assert tok'[x].WDone?; }
    }
  }

  lemma FileTokenCount(c: Config, s: State, w: nat)
    requires TokensOk(c, s.drain, s.mode, s.clock, s.open, |s.files|, |s.log|)
    requires Sizes(c, s) && FileTokenGuard(c, s, w) && s.drain.wleft != 1
    ensures var s' := ApplyFileToken(c, s, w);
            TokensOk(c, s'.drain, s'.mode, s'.clock, s'.open, |s'.files|, |s'.log|)
  {
    assert Phase1(s.drain);
    LastToken(s.drain.wtok, w);
  }

  lemma LastFileTokenCount(c: Config, s: State, w: nat)
    requires TokensOk(c, s.drain, s.mode, s.clock, s.open, |s.files|, |s.log|)
    requires Sizes(c, s) && FileTokenGuard(c, s, w) && s.drain.wleft == 1
    ensures var s' := ApplyFileToken(c, s, w);
            TokensOk(c, s'.drain, s'.mode, s'.clock, s'.open, |s'.files|, |s'.log|)
  {
    assert Phase1(s.drain);
    LastToken(s.drain.wtok, w);
    CLeftBounds(s.drain.ctok);
    CLeftBounds(ApplyFileToken(c, s, w).drain.ctok);
  }

  lemma FileTokenParts(c: Config, s: State, w: nat)
    requires Core(c, s) && FileTokenGuard(c, s, w)
    ensures var s' := ApplyFileToken(c, s, w);
            && TokensOk(c, s'.drain, s'.mode, s'.clock, s'.open, |s'.files|, |s'.log|)
            && DrainOk(s'.place, s'.mode, s'.drain, s'.blocks, s'.tbs, s'.tocChan)
  {
    if s.drain.wleft == 1 { LastFileTokenCount(c, s, w); } else { FileTokenCount(c, s, w); }
    LastToken(s.drain.wtok, w);
    assert Phase1(s.drain);
    FileTokenDrain(c, s, w);
  }

  lemma FileTokenFlushed(c: Config, s: State, w: nat)
    requires w < |s.drain.wtok| && FlushedOk(s)
    ensures FlushedOk(ApplyFileToken(c, s, w))
  {
    var s' := ApplyFileToken(c, s, w);
    forall n: nat | n < s'.flushed ensures SafeAt(s', n) { assert SafeAt(s, n); }
  }

  lemma FileTokenOk(c: Config, s: State, w: nat)
    requires Core(c, s) && FileTokenGuard(c, s, w)
    ensures Core(c, ApplyFileToken(c, s, w))
  {
    var s' := ApplyFileToken(c, s, w);
    FileTokenParts(c, s, w);
    FileTokenFlushed(c, s, w);
    PlainFrame(c, s, s');
    ClockForward(c, s, s'.clock);
  }

  lemma FileTokenDrain(c: Config, s: State, w: nat)
    requires Core(c, s) && FileTokenGuard(c, s, w)
    requires s.drain.wleft == 1 ==> forall x :: 0 <= x < c.workers && x != w ==> s.drain.wtok[x].WDone?
    ensures var s' := ApplyFileToken(c, s, w);
            DrainOk(s'.place, s'.mode, s'.drain, s'.blocks, s'.tbs, s'.tocChan)
  {
    var s' := ApplyFileToken(c, s, w);
    forall n: nat ensures AheadOfToken(s'.place, s'.mode, s'.drain, s'.blocks, s'.tbs, s'.tocChan, n) {
      if s.drain.wleft == 1 { LastFileTokenAhead(c, s, w, n); } else { FileTokenAhead(c, s, w, n); }
    }
  }
}
