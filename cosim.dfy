/** `run()` of code/core.py: the counter handshake with the external actor, the
    per-step write/inject/simulate/record sequence and the status table.
    The simulator is an oracle giving, for step k, its measurements, its exit
    code and the area control error; wall-clock readings become the three
    durations of the step. */
module CoSim {
  import opened Wire
  import opened DataIo
  import opened Ace

  /** Counter the init loop waits for, counter after which the base wraps, and
      the base the counters restart from. */
  const InitCounter: int := 11
  const LastCounter: int := 199
  const CounterBase: int := 10

  /** Columns of the status table, in the order of `scols`, and `tall`, the
      column added on export. */
  const KR: nat := 0
  const K: nat := 1
  const V: nat := 2
  const FREQ: nat := 3
  const P: nat := 4
  const Q: nat := 5
  const PDEF: nat := 6
  const QDEF: nat := 7
  const TW: nat := 8
  const TR: nat := 9
  const TSIM: nat := 10
  const TF: nat := 11
  const NCols: nat := 12
  const TALL: nat := 12

  /** The entries of `config` and the run arguments the loop uses. `steps` is
      the number of steps `tf / t_step`, which with `ti == 1` is also the
      number of preallocated rows; `agcSteps` is `intv_agc / t_step`. */
  datatype Config = Config(steps: nat, agcSteps: nat, kp: real, ki: real, ti: real, tStep: real,
                           itermaxIo: nat, loadSwitch: bool)

  /** The configuration of `run()` with its default `tf = 20`. */
  const SourceConfig: Config := Config(400, 20, 0.005, 0.001, 1.0, 0.05, 20, true)

  /** The `status` dictionary. */
  datatype Status = Status(iterTotal: nat, iterFail: nat, kr: int, k: nat, v: real, freq: real,
                           p: Option<real>, q: Option<real>, pdef: Option<real>, qdef: Option<real>,
                           tw: real, tr: real, tsim: real, tf: real)

  const InitialStatus: Status :=
    Status(0, 0, 0, 0, 0.0, 0.0, Some(0.0), Some(0.0), Some(0.0), Some(0.0), 0.0, 0.0, 0.0, 0.0)

  /** What the collaborators supply for one step: the bus frequency and voltage
      read before the step, the state of the write file, the simulator's exit
      code, the ACE measurement, and the read, write and simulation durations. */
  datatype StepEnv = StepEnv(fBus: real, vBus: real, sink: Sink, exitCode: int, ace: real,
                             tr: real, tw: real, tsim: real)

  /** One attempt of both read loops: `data_io(file=read_path)`, which passes
      no defaults. */
  function Attempt(f: FileState): Reading {
    DataIoRead(f, None, None).0
  }

  lemma AttemptCounter(f: FileState)
    ensures Attempt(f).k == Counter(f, KDef)
    ensures Attempt(f).p.Some? <==> Readable(f)
    ensures Attempt(f).q.Some? <==> Readable(f)
  {
  }

  function Min(a: nat, b: nat): nat {
    if a <= b then a else b
  }

  // ---- init loop (code/core.py:296-301) ----

  /** Outcome of the init loop: the counter, `p` and `q` it leaves in
      `status` and the number of reads; `InitStarved` when the reads ran out. */
  datatype InitWait = InitWait(kr: int, p: Option<real>, q: Option<real>, used: nat) | InitStarved

  /** The init loop, declaratively: the reads up to and including the first one
      whose counter is 11, or exactly one read in test mode. */
  function InitWaitSpec(files: seq<FileState>, kr: int, p: Option<real>, q: Option<real>,
                        testMode: bool): InitWait
  {
    if kr == InitCounter then InitWait(kr, p, q, 0)
    else
      var n := if testMode then 1 else FirstIndex(Counters(files, KDef), InitCounter) + 1;
      if n > |files| then InitStarved
      else
        var last := Attempt(files[n - 1]);
        InitWait(InitCounter, last.p, last.q, n)
  }

  method AwaitInit(files: seq<FileState>, kr: int, p: Option<real>, q: Option<real>, testMode: bool)
    returns (w: InitWait)
    ensures w == InitWaitSpec(files, kr, p, q, testMode)
  {
    var kr', p', q' := kr, p, q;
    var used := 0;
    while kr' != InitCounter
      invariant used <= |files|
      invariant used > 0 ==> kr != InitCounter
      invariant used == 0 ==> kr' == kr && p' == p && q' == q
      invariant used > 0 ==> p' == Attempt(files[used - 1]).p && q' == Attempt(files[used - 1]).q
      invariant used > 0 && !testMode ==> kr' == Counter(files[used - 1], KDef)
      invariant testMode ==> used <= 1 && (used == 1 ==> kr' == InitCounter)
      invariant !testMode ==> forall j :: 0 <= j < used - 1 ==> Counter(files[j], KDef) != InitCounter
      invariant kr' != InitCounter ==> forall j :: 0 <= j < used ==> Counter(files[j], KDef) != InitCounter
      decreases |files| - used
    {
      if used == |files| {
        FirstIndexAtLeast(Counters(files, KDef), InitCounter, used);
        return InitStarved;
      }
      var r := Attempt(files[used]);
      AttemptCounter(files[used]);
      kr', p', q' := r.k, r.p, r.q;
      if testMode {
        kr' := InitCounter;
      }
      used := used + 1;
    }
    if used > 0 {
      InitWaitEnds(files, kr, p, q, testMode, used);
    }
    w := InitWait(kr', p', q', used);
  }

  /** The spec's outcome when the init loop stopped after `n` reads. */
  lemma InitWaitEnds(files: seq<FileState>, kr: int, p: Option<real>, q: Option<real>, testMode: bool, n: nat)
    requires kr != InitCounter && 1 <= n <= |files|
    requires testMode ==> n == 1
    requires !testMode ==> forall j :: 0 <= j < n - 1 ==> Counter(files[j], KDef) != InitCounter
    requires !testMode ==> Counter(files[n - 1], KDef) == InitCounter
    ensures var last := Attempt(files[n - 1]);
            InitWaitSpec(files, kr, p, q, testMode) == InitWait(InitCounter, last.p, last.q, n)
  {
    if !testMode {
      var cs := Counters(files, KDef);
      FirstIndexAt(cs, InitCounter, n - 1);
      assert FirstIndex(cs, InitCounter) + 1 == n;
    }
  }

  // ---- per-step read loop (code/core.py:310-320) ----

  /** Outcome of a step's read loop: the counter, `p`, `q`, `pdef`, `qdef` it
      leaves in `status` and the number of attempts (`iter_read`). */
  datatype StepWait = StepWait(kr: int, p: Option<real>, q: Option<real>, pdef: Option<real>,
                               qdef: Option<real>, attempts: nat) | StepStarved

  /** A step's read loop, declaratively: it stops at the first read whose
      counter is `kr0 + 1` or after `itermax + 1` attempts, whichever comes
      first, and in test mode after one attempt with the counter forced to
      `kr0 + 1`. Every attempt copies its `p`, `q` into `pdef`, `qdef`, so on
      exhaustion the fallback is the last attempt's values. */
  function StepWaitSpec(files: seq<FileState>, kr0: int, kr: int, p: Option<real>, q: Option<real>,
                        pdef: Option<real>, qdef: Option<real>, itermax: nat, testMode: bool): StepWait
  {
    if kr == kr0 + 1 then StepWait(kr, p, q, pdef, qdef, 0)
    else
      var n := if testMode then 1 else Min(FirstIndex(Counters(files, KDef), kr0 + 1) + 1, itermax + 1);
      if n > |files| then StepStarved
      else
        var last := Attempt(files[n - 1]);
        StepWait(if testMode then kr0 + 1 else last.k, last.p, last.q, last.p, last.q, n)
  }

  method AwaitStep(files: seq<FileState>, kr0: int, kr: int, p: Option<real>, q: Option<real>,
                   pdef: Option<real>, qdef: Option<real>, itermax: nat, testMode: bool)
    returns (w: StepWait)
    ensures w == StepWaitSpec(files, kr0, kr, p, q, pdef, qdef, itermax, testMode)
  {
    var kr', p', q', pdef', qdef' := kr, p, q, pdef, qdef;
    var iterRead := 0;
    while kr' != kr0 + 1 && iterRead <= itermax
      invariant iterRead <= |files| && iterRead <= itermax + 1
      invariant iterRead > 0 ==> kr != kr0 + 1
      invariant iterRead == 0 ==> kr' == kr && p' == p && q' == q && pdef' == pdef && qdef' == qdef
      invariant iterRead > 0 ==> p' == Attempt(files[iterRead - 1]).p && q' == Attempt(files[iterRead - 1]).q
      invariant iterRead > 0 ==> pdef' == p' && qdef' == q'
      invariant iterRead > 0 && !testMode ==> kr' == Counter(files[iterRead - 1], KDef)
      invariant testMode ==> iterRead <= 1 && (iterRead == 1 ==> kr' == kr0 + 1)
      invariant !testMode ==> forall j :: 0 <= j < iterRead - 1 ==> Counter(files[j], KDef) != kr0 + 1
      invariant kr' != kr0 + 1 ==> forall j :: 0 <= j < iterRead ==> Counter(files[j], KDef) != kr0 + 1
      decreases itermax + 1 - iterRead
    {
      if iterRead == |files| {
        StepWaitStarves(files, kr0, kr, p, q, pdef, qdef, itermax, testMode);
        return StepStarved;
      }
      var r := Attempt(files[iterRead]);
      AttemptCounter(files[iterRead]);
      kr', p', q' := r.k, r.p, r.q;
      pdef', qdef' := p', q';
      if testMode {
        kr' := kr0 + 1;
      }
      iterRead := iterRead + 1;
    }
    if iterRead > itermax {
      p', q' := pdef', qdef';
    }
    if iterRead > 0 {
      StepWaitEnds(files, kr0, kr, p, q, pdef, qdef, itermax, testMode, iterRead);
    }
    w := StepWait(kr', p', q', pdef', qdef', iterRead);
  }

  /** The spec's outcome when the reads ran out before the loop stopped. */
  lemma StepWaitStarves(files: seq<FileState>, kr0: int, kr: int, p: Option<real>, q: Option<real>,
                        pdef: Option<real>, qdef: Option<real>, itermax: nat, testMode: bool)
    requires kr != kr0 + 1
    requires testMode ==> files == []
    requires !testMode ==> |files| <= itermax && forall j :: 0 <= j < |files| ==> Counter(files[j], KDef) != kr0 + 1
    ensures StepWaitSpec(files, kr0, kr, p, q, pdef, qdef, itermax, testMode) == StepStarved
  {
    if !testMode {
      FirstIndexAtLeast(Counters(files, KDef), kr0 + 1, |files|);
    }
  }

  /** The spec's outcome when the loop stopped after `n` attempts. */
  lemma StepWaitEnds(files: seq<FileState>, kr0: int, kr: int, p: Option<real>, q: Option<real>,
                     pdef: Option<real>, qdef: Option<real>, itermax: nat, testMode: bool, n: nat)
    requires kr != kr0 + 1 && 1 <= n <= |files| && n <= itermax + 1
    requires testMode ==> n == 1
    requires !testMode ==> forall j :: 0 <= j < n - 1 ==> Counter(files[j], KDef) != kr0 + 1
    requires !testMode ==> Counter(files[n - 1], KDef) == kr0 + 1 || n == itermax + 1
    ensures var last := Attempt(files[n - 1]);
            StepWaitSpec(files, kr0, kr, p, q, pdef, qdef, itermax, testMode)
            == StepWait(if testMode then kr0 + 1 else last.k, last.p, last.q, last.p, last.q, n)
  {
    if !testMode {
      StepWaitCount(files, kr0, itermax, n);
    }
  }

  /** The number of attempts of the step read loop, outside test mode. */
  lemma StepWaitCount(files: seq<FileState>, kr0: int, itermax: nat, n: nat)
    requires 1 <= n <= |files| && n <= itermax + 1
    requires forall j :: 0 <= j < n - 1 ==> Counter(files[j], KDef) != kr0 + 1
    requires Counter(files[n - 1], KDef) == kr0 + 1 || n == itermax + 1
    ensures Min(FirstIndex(Counters(files, KDef), kr0 + 1) + 1, itermax + 1) == n
  {
    var cs := Counters(files, KDef);
    if cs[n - 1] == kr0 + 1 {
      FirstIndexAt(cs, kr0 + 1, n - 1);
    } else {
      FirstIndexAtLeast(cs, kr0 + 1, n);
    }
  }

  /** Properties of the step read loop: at least one attempt when the counter
      has not advanced yet, at most `itermax + 1`, exactly one in test mode; it
      ends on the expected counter unless the budget is used up, every earlier
      attempt saw another counter, and the values it leaves are those of its
      last attempt, with `pdef`, `qdef` equal to `p`, `q`. */
  lemma {:induction false} StepWaitBounded(files: seq<FileState>, kr0: int, kr: int, p: Option<real>,
                                           q: Option<real>, pdef: Option<real>, qdef: Option<real>,
                                           itermax: nat, testMode: bool)
    requires kr != kr0 + 1
    ensures var w := StepWaitSpec(files, kr0, kr, p, q, pdef, qdef, itermax, testMode);
            w.StepWait? ==>
              1 <= w.attempts <= itermax + 1 && w.attempts <= |files|
              && (testMode ==> w.attempts == 1 && w.kr == kr0 + 1)
              && (w.kr == kr0 + 1 || w.attempts == itermax + 1)
              && (!testMode ==> forall j :: 0 <= j < w.attempts - 1 ==> Attempt(files[j]).k != kr0 + 1)
              && (!testMode ==> w.kr == Attempt(files[w.attempts - 1]).k)
              && w.p == Attempt(files[w.attempts - 1]).p && w.q == Attempt(files[w.attempts - 1]).q
              && w.pdef == w.p && w.qdef == w.q
    ensures StepWaitSpec(files, kr0, kr, p, q, pdef, qdef, itermax, testMode).StepStarved? <==>
              |files| < (if testMode then 1 else Min(FirstIndex(Counters(files, KDef), kr0 + 1) + 1, itermax + 1))
  {
    var w := StepWaitSpec(files, kr0, kr, p, q, pdef, qdef, itermax, testMode);
    if w.StepWait? && !testMode {
      var cs := Counters(files, KDef);
      FirstIndexFinds(cs, kr0 + 1);
      forall j | 0 <= j < w.attempts ensures Attempt(files[j]).k == cs[j] {
        AttemptCounter(files[j]);
      }
    }
  }

  /** A wait that ends on a failed attempt leaves `p` and `q` as None: the
      run calls `data_io` without defaults, so a failed read returns Python's
      None, and the copy into `pdef`, `qdef` keeps no earlier value. With the
      budget of the source (20) and 21 missing files in a row, the fallback
      after exhaustion is None. */
  lemma ExhaustedWaitFallsBackToNone(kr0: int, pdef: Option<real>, qdef: Option<real>)
    requires kr0 != -5
    ensures StepWaitSpec(seq(21, _ => Missing), kr0, kr0, Some(0.5), Some(0.5), pdef, qdef, 20, false)
         == StepWait(KDef, None, None, None, None, 21)
  {
    var files: seq<FileState> := seq(21, _ => Missing);
    var cs := Counters(files, KDef);
    assert forall j :: 0 <= j < 21 ==> cs[j] == KDef;
    FirstIndexAtLeast(cs, kr0 + 1, 21);
  }

  // ---- the wait as evidently intended ----

  /** The `p` (or `q`, with `q` selected) of the most recent successful read in
      `files`, or `dflt` when none succeeded. */
  function LastGood(files: seq<FileState>, dflt: Option<real>, selectQ: bool): Option<real> {
    if files == [] then dflt
    else if Readable(files[|files| - 1]) then
      var r := Attempt(files[|files| - 1]);
      if selectQ then r.q else r.p
    else LastGood(files[..|files| - 1], dflt, selectQ)
  }

  /** The step read loop when each attempt passes the current defaults to
      `data_io` (`data_io(file=read_path, pdef=status['pdef'],
      qdef=status['qdef'])`), which is what the comments at lines 50-52, 315
      and 320 describe: the defaults then change only on a successful read,
      and on exhaustion the step uses the last successfully read values. */
  method AwaitStepFixed(files: seq<FileState>, kr0: int, kr: int, p: Option<real>, q: Option<real>,
                        pdef: Option<real>, qdef: Option<real>, itermax: nat, testMode: bool)
    returns (w: StepWait)
    requires kr != kr0 + 1
    ensures w.StepWait? ==> 1 <= w.attempts <= itermax + 1 && w.attempts <= |files|
    ensures w.StepWait? ==> w.kr == kr0 + 1 || w.attempts == itermax + 1
    ensures w.StepWait? ==> w.pdef == LastGood(files[..w.attempts], pdef, false) && w.p == w.pdef
    ensures w.StepWait? ==> w.qdef == LastGood(files[..w.attempts], qdef, true) && w.q == w.qdef
    ensures w.StepWait? && pdef.Some? && qdef.Some? ==> w.p.Some? && w.q.Some?
    ensures w.StepStarved? ==> |files| <= itermax && (testMode ==> files == [])
  {
    var kr', p', q', pdef', qdef' := kr, p, q, pdef, qdef;
    var iterRead := 0;
    while kr' != kr0 + 1 && iterRead <= itermax
      invariant iterRead <= |files| && iterRead <= itermax + 1
      invariant iterRead == 0 ==> kr' == kr && pdef' == pdef && qdef' == qdef
      invariant pdef' == LastGood(files[..iterRead], pdef, false)
      invariant qdef' == LastGood(files[..iterRead], qdef, true)
      invariant iterRead > 0 ==> p' == pdef' && q' == qdef'
      invariant pdef.Some? ==> pdef'.Some?
      invariant qdef.Some? ==> qdef'.Some?
      invariant testMode ==> iterRead <= 1 && (iterRead == 1 ==> kr' == kr0 + 1)
      decreases itermax + 1 - iterRead
    {
      if iterRead == |files| {
        return StepStarved;
      }
      var f := files[iterRead];
      var r := DataIoRead(f, pdef', qdef').0;
      assert files[..iterRead + 1][..iterRead] == files[..iterRead];
      kr', p', q' := r.k, r.p, r.q;
      pdef', qdef' := p', q';
      if testMode {
        kr' := kr0 + 1;
      }
      iterRead := iterRead + 1;
    }
    if iterRead > itermax {
      p', q' := pdef', qdef';
    }
    w := StepWait(kr', p', q', pdef', qdef', iterRead);
  }
}
