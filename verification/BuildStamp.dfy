/** The stamp file that says whether LLVM (or the sanitizers) have been built, when the process
    may die at any moment. */
module BuildStamp {
  import opened Wrappers

  /** `unwrap_or(b"")`: an unknown commit hash is written as nothing. */
  function HashBytes(hash: Option<Bytes>): Bytes {
    if hash.Some? then hash.value else []
  }

  /** What survives on disk, and two facts about the past: the hash under which the last
      completed build was made, and whether the last build started has completed. */
  datatype Disk = Disk(stamp: Option<Bytes>, built: Option<Bytes>, complete: bool)

  const FRESH: Disk := Disk(None, None, false)

  /** Where an invocation dies, if it does.  `Torn(n)` is inside the write of the stamp: the
      file is there, with the first `n` bytes of the hash. */
  datatype Crash = Never | BeforeRemove | BeforeBuild | InBuild | BeforeWrite | Torn(n: nat)

  datatype Invocation = Invocation(hash: Option<Bytes>, skipRebuild: bool, crash: Crash)

  /** `HashStamp::is_done`. */
  predicate IsDone(d: Disk, hash: Option<Bytes>) {
    d.stamp == Some(HashBytes(hash))
  }

  /** The early returns of `prebuilt_llvm_config`. */
  predicate Prebuilt(d: Disk, inv: Invocation) {
    (inv.skipRebuild && d.stamp.Some?) || IsDone(d, inv.hash)
  }

  function Prefix(b: Bytes, n: nat): Bytes {
    if n <= |b| then b[..n] else b
  }

  /** The disk after one invocation: check, remove the stamp, build, write the stamp. */
  function Invoke(d: Disk, inv: Invocation): Disk {
    var h := HashBytes(inv.hash);
    if Prebuilt(d, inv) || inv.crash == BeforeRemove then d
    else
      match inv.crash
      case BeforeBuild => d.(stamp := None)
      case InBuild => Disk(None, d.built, false)
      case BeforeWrite => Disk(None, Some(h), true)
      case Torn(n) => Disk(Some(Prefix(h, n)), Some(h), true)
      case _ => Disk(Some(h), Some(h), true)
  }

  function Run(d: Disk, invs: seq<Invocation>): Disk {
    if invs == [] then d else Invoke(Run(d, invs[..|invs| - 1]), invs[|invs| - 1])
  }

  /** The invocation gives its caller a build to use: it did not die. */
  predicate Returns(d: Disk, inv: Invocation) {
    Prebuilt(d, inv) || inv.crash == Never
  }

  // ------------------------------------------------------------------ in place

  /** The stamp file. */
  class StampFile {
    var content: Option<Bytes>

    constructor ()
      ensures content == None
    {
      content := None;
    }

    method Remove()
      modifies this
      ensures content == None
    {
      content := None;
    }

    /** `fs::write` creates or truncates the file, then writes; it can die anywhere within. */
    method Write(bytes: Bytes, upTo: nat)
      modifies this
      ensures content == Some(Prefix(bytes, upTo))
    {
      content := Some([]);
      for i := 0 to if upTo <= |bytes| then upTo else |bytes|
        invariant content == Some(bytes[..i])
      {
        content := Some(bytes[..i] + [bytes[i]]);
        assert bytes[..i + 1] == bytes[..i] + [bytes[i]];
      }
      assert bytes[..|bytes|] == bytes;
    }
  }

  /** `Llvm::run` and `Sanitizers::run` as far as they touch the stamp. */
  class Builder {
    const stamp: StampFile
    ghost var built: Option<Bytes>
    ghost var complete: bool

    ghost function Value(): Disk
      reads this, stamp
    {
      Disk(stamp.content, built, complete)
    }

    constructor ()
      ensures Value() == FRESH && fresh(stamp)
    {
      stamp := new StampFile();
      built, complete := None, false;
    }

    method BuildLlvm(inv: Invocation) returns (returned: bool)
      modifies this, stamp
      ensures Value() == Invoke(old(Value()), inv)
      ensures returned == Returns(old(Value()), inv)
    {
      if inv.skipRebuild && stamp.content.Some? {
        return true;
      }
      var hash := HashBytes(inv.hash);
      if stamp.content == Some(hash) {
        return true;
      }
      if inv.crash == BeforeRemove {
        return false;
      }
      stamp.Remove();
      if inv.crash == BeforeBuild {
        return false;
      }
      complete := false;
      if inv.crash == InBuild {
        return false;
      }
      built, complete := Some(hash), true;
      if inv.crash == BeforeWrite {
        return false;
      }
      if inv.crash.Torn? {
        stamp.Write(hash, inv.crash.n);
        return false;
      }
      stamp.Write(hash, |hash|);
      assert hash[..|hash|] == hash;
      return true;
    }
  }

  // ------------------------------------------------------------------ main results

  /** A stamp is there only after the last build has completed, and is then a prefix of the
      hash of that build. */
  ghost predicate Sound(d: Disk) {
    d.stamp.Some? ==> d.complete && d.built.Some? && d.stamp.value <= d.built.value
  }

  /** Over any number of invocations, under any hashes, dying anywhere. */
  lemma {:induction false} AlwaysSound(invs: seq<Invocation>)
    ensures Sound(Run(FRESH, invs))
    decreases |invs|
  {
    if invs != [] {
      AlwaysSound(invs[..|invs| - 1]);
    }
  }

  ghost predicate Hashes(invs: seq<Invocation>, hs: set<Bytes>) {
    forall i :: 0 <= i < |invs| ==> HashBytes(invs[i].hash) in hs
  }

  lemma {:induction false} BuiltUnder(invs: seq<Invocation>, hs: set<Bytes>)
    requires Hashes(invs, hs)
    ensures Run(FRESH, invs).built.Some? ==> Run(FRESH, invs).built.value in hs
    decreases |invs|
  {
    if invs != [] {
      BuiltUnder(invs[..|invs| - 1], hs);
    }
  }

  /** `is_done` for hash `x` can be trusted, whatever runs went before, exactly when no hash in
      use is a proper extension of `x`: the case of a torn write. */
  lemma TrustExactly(x: Bytes, hs: set<Bytes>)
    ensures (forall invs :: Hashes(invs, hs) && IsDone(Run(FRESH, invs), Some(x)) ==> Run(FRESH, invs).built == Some(x))
            <==> (forall h :: h in hs ==> !(x < h))
  {
    if h :| h in hs && x < h {
      var invs := [Invocation(Some(h), false, Torn(|x|))];
      assert invs[..0] == [];
      assert Run(FRESH, invs) == Invoke(FRESH, invs[0]);
      assert Prefix(h, |x|) == x;
      assert Hashes(invs, hs) && IsDone(Run(FRESH, invs), Some(x)) && Run(FRESH, invs).built == Some(h);
    } else {
      forall invs | Hashes(invs, hs) && IsDone(Run(FRESH, invs), Some(x))
        ensures Run(FRESH, invs).built == Some(x)
      {
        AlwaysSound(invs);
        BuiltUnder(invs, hs);
        var h := Run(FRESH, invs).built.value;
        assert x <= h && !(x < h);
        assert x == h[..|x|] == h;
      }
    }
  }

  /** Commit hashes have one length, so they can be trusted; the empty hash of an unknown commit
      cannot once any real hash has been in use. */
  lemma CommitHashes(x: Bytes, hs: set<Bytes>, length: nat, invs: seq<Invocation>)
    requires length > 0 && (forall h :: h in hs ==> |h| == length || h == []) && Hashes(invs, hs)
    ensures |x| == length && IsDone(Run(FRESH, invs), Some(x)) ==> Run(FRESH, invs).built == Some(x)
    ensures (exists h :: h in hs && h != []) ==>
              exists bad :: Hashes(bad, hs) && IsDone(Run(FRESH, bad), None) && Run(FRESH, bad).built != Some([])
  {
    if |x| == length {
      TrustExactly(x, hs);
    }
    if h :| h in hs && h != [] {
      assert [] < h;
      TrustExactly([], hs);
      var bad :| Hashes(bad, hs) && IsDone(Run(FRESH, bad), Some([])) && Run(FRESH, bad).built != Some([]);
      assert IsDone(Run(FRESH, bad), None);
    }
  }

  /** An invocation that returns leaves a completed build; unless it was told to skip rebuilding
      and found a stamp, and if its hash can be trusted, one made under its own hash; and asking
      again changes nothing. */
  lemma ReturnsUsable(invs: seq<Invocation>, hs: set<Bytes>, inv: Invocation, again: Invocation)
    requires Hashes(invs, hs) && Returns(Run(FRESH, invs), inv)
    requires forall h :: h in hs ==> !(HashBytes(inv.hash) < h)
    requires again.hash == inv.hash
    ensures var d := Invoke(Run(FRESH, invs), inv);
            && d.complete && d.stamp.Some?
            && (!inv.skipRebuild ==> d.built == Some(HashBytes(inv.hash)) && Invoke(d, again) == d)
  {
    AlwaysSound(invs);
    TrustExactly(HashBytes(inv.hash), hs);
    assert IsDone(Run(FRESH, invs), inv.hash) ==> IsDone(Run(FRESH, invs), Some(HashBytes(inv.hash)));
  }

  // ------------------------------------------------------------------ what an invocation does

  /** With rebuilding skipped, any stamp will do: nothing happens and the build is returned,
      wherever the process would have died. */
  lemma SkipRebuild(d: Disk, inv: Invocation)
    requires inv.skipRebuild && d.stamp.Some?
    ensures Invoke(d, inv) == d && Returns(d, inv)
  {
  }

  /** A disk on which nothing need be done: a stamp is there, and either rebuilding is skipped or
      it holds the bytes of the commit's hash (none, if that is unknown). */
  ghost predicate NothingToDo(d: Disk, hash: Option<Bytes>, skipRebuild: bool) {
    d.stamp.Some? && (skipRebuild || d.stamp.value == match hash case None => [] case Some(h) => h)
  }

  /** An invocation that would die in the build leaves a completed build alone exactly then. */
  lemma LeftAloneExactly(d: Disk, inv: Invocation)
    requires d.complete && inv.crash == InBuild
    ensures Invoke(d, inv) == d <==> NothingToDo(d, inv.hash, inv.skipRebuild)
    ensures Returns(d, inv) <==> NothingToDo(d, inv.hash, inv.skipRebuild)
  {
  }

  /** Otherwise the stamp is gone before the build begins and comes back after it has completed;
      what is on disk says how far the invocation got. */
  lemma HowFar(d: Disk, inv: Invocation)
    requires !NothingToDo(d, inv.hash, inv.skipRebuild)
    ensures var d', h := Invoke(d, inv), (match inv.hash case None => [] case Some(h) => h);
            && (inv.crash == BeforeRemove ==> d' == d)
            && (inv.crash in {BeforeBuild, InBuild, BeforeWrite} ==> d'.stamp == None)
            && (inv.crash == BeforeBuild ==> d'.complete == d.complete)
            && (inv.crash in {BeforeBuild, InBuild} ==> d'.built == d.built)
            && (inv.crash == InBuild ==> !d'.complete)
            && (inv.crash in {BeforeWrite, Never} || inv.crash.Torn? ==> d'.complete && d'.built == Some(h))
            && (inv.crash == Never ==> d'.stamp == Some(h))
            && (inv.crash.Torn? ==> d'.stamp.Some? && d'.stamp.value <= h
                                    && |d'.stamp.value| == if inv.crash.n <= |h| then inv.crash.n else |h|)
            && (Returns(d, inv) <==> inv.crash == Never)
  {
  }
}
