/** The main loop of `run()` in code/core.py: per step, wait for the next
    counter, send the bus voltage and frequency, inject the read power, set
    the AGC signal, simulate one time step, update the ACE controller and
    record a row of the status table. */
module MainLoop {
  import opened Wire
  import opened DataIo
  import opened Ace
  import opened CoSim
  // ---- the main loop (code/core.py:302-384) ----

  /** How the run ends: the loop reached `rows`, the simulator failed (the
      loop breaks), the reads ran out (the model's horizon), the write file
      raised an OSError other than FileNotFoundError, or `load_switch *
      None` raised TypeError. In the last two cases the exception leaves
      `run`, so no table is saved. */
  datatype Ending = Finished | SimFailed | Starved | WriteRaised | NoneInjected

  /** What the run produces: the ending, the final `status`, the outcome of
      the init loop, the outcome of each step's read loop and the number of
      reads consumed before it (one more entry: the reads consumed at the
      end), the rows handed to `data_io` for writing, the load injections
      `(p_inj, q_inj)`, the AGC setpoints `paux0` in order, and the saved
      table `cosim_out` with its `tall` column. */
  datatype RunOutput = RunOutput(ending: Ending, status: Status, init: InitWait, waits: seq<StepWait>,
                                 readsBefore: seq<nat>, sent: seq<Written>, loads: seq<(real, real)>,
                                 paux: seq<real>, table: seq<seq<real>>)

  /** Python's `flag * x` for a boolean flag and a float. */
  function Scale(flag: bool, x: real): (y: real)
    ensures flag ==> y == x
    ensures !flag ==> y == 0.0
  {
    if flag then x else 0.0
  }

  /** The counter base after a recorded step: 199 wraps to 10. */
  function Wrap(c: int): (d: int)
    ensures c == LastCounter ==> d == CounterBase
    ensures c != LastCounter ==> d == c
  {
    if c == LastCounter then CounterBase else c
  }

  /** The counter `kr0` a step waits to see incremented: 11 after the init
      loop, then the counter of the previous step, wrapped. */
  function Base(waits: seq<StepWait>, i: nat): int
    requires i <= |waits| && (i == 0 || waits[i - 1].StepWait?)
  {
    if i == 0 then InitCounter else Wrap(waits[i - 1].kr)
  }

  /** A step's read loop started with the counter equal to `kr0`: the case of
      `StepWaitSpec` the main loop always meets. */
  function StepWaitFrom(files: seq<FileState>, kr0: int, itermax: nat, testMode: bool): StepWait {
    StepWaitSpec(files, kr0, kr0, None, None, None, None, itermax, testMode)
  }

  /** The ACE measurements of the first `n` steps. */
  function AcesOf(env: nat -> StepEnv, n: nat): (aces: seq<real>)
    ensures |aces| == n && forall i :: 0 <= i < n ==> aces[i] == env(i).ace
  {
    seq(n, i requires 0 <= i < n => env(i).ace)
  }

  /** Whether a step took longer than two time steps from the start of its
      read to the end of its simulation. */
  predicate Late(e: StepEnv, tStep: real) {
    e.tr + e.tw + e.tsim > 2.0 * tStep
  }

  /** Number of late steps among the first `n`. */
  function LateCount(env: nat -> StepEnv, n: nat, tStep: real): (c: nat)
    ensures c <= n
  {
    if n == 0 then 0 else LateCount(env, n - 1, tStep) + (if Late(env(n - 1), tStep) then 1 else 0)
  }

  /** The simulator's end time after `k` steps: `tStep` added `k` times to
      `ti`, as `ss.TDS.config.tf += t_step` does. */
  function EndTime(ti: real, tStep: real, k: nat): real {
    if k == 0 then ti else EndTime(ti, tStep, k - 1) + tStep
  }

  lemma {:induction false} EndTimeClosed(ti: real, tStep: real, k: nat)
    ensures EndTime(ti, tStep, k) == ti + (k as real) * tStep
  {
    if k > 0 {
      EndTimeClosed(ti, tStep, k - 1);
    }
  }

  /** The row `[status[col] for col in scols]` recorded for step `i + 1`. */
  function RowOf(cfg: Config, i: nat, w: StepWait, e: StepEnv): (row: seq<real>)
    requires w.StepWait? && w.p.Some? && w.q.Some? && w.pdef.Some? && w.qdef.Some?
    ensures |row| == NCols
  {
    [w.kr as real, (i + 1) as real, e.vBus, e.fBus, w.p.value, w.q.value, w.pdef.value, w.qdef.value,
     e.tw, e.tr, e.tsim, EndTime(cfg.ti, cfg.tStep, i + 1)]
  }

  /** `status` after a recorded step, as the record reads it. */
  function Recorded(s: Status): seq<real>
    requires s.p.Some? && s.q.Some? && s.pdef.Some? && s.qdef.Some?
  {
    [s.kr as real, s.k as real, s.v, s.freq, s.p.value, s.q.value, s.pdef.value, s.qdef.value,
     s.tw, s.tr, s.tsim, s.tf]
  }

  /** `cosim_data[i, :] = row`. */
  method WriteRow(table: array2<real>, i: nat, row: seq<real>)
    requires i < table.Length0 && |row| == table.Length1
    modifies table
    ensures forall r, c :: 0 <= r < table.Length0 && 0 <= c < table.Length1 ==>
              table[r, c] == if r == i then row[c] else old(table[r, c])
  {
    var c := 0;
    while c < table.Length1
      invariant c <= table.Length1
      invariant forall r, c' :: 0 <= r < table.Length0 && 0 <= c' < table.Length1 ==>
                  table[r, c'] == if r == i && c' < c then row[c'] else old(table[r, c'])
    {
      table[i, c] := row[c];
      c := c + 1;
    }
  }


  /** A run the loop left by an exception. */
  predicate Aborted(e: Ending) {
    e == WriteRaised || e == NoneInjected
  }

  /** The state the loop carries: `status`, `kr0`, the number of reads
      consumed, the simulator's end time `ss.TDS.config.tf`, the logs of the
      read loops, writes, injections and AGC setpoints, and how the loop
      ended (`Finished` while it is still running). */
  datatype Progress = Progress(st: Status, kr0: int, pos: nat, simTf: real, waits: seq<StepWait>,
                               readsBefore: seq<nat>, sent: seq<Written>, loads: seq<(real, real)>,
                               paux: seq<real>, ending: Ending)

  // ---- the phases of one step ----

  /** The read loop's outcome enters `status`, `kr0` follows the counter and
      the step counter `k` advances. */
  function AfterRead(g: Progress, w: StepWait): Progress
    requires w.StepWait?
  {
    var pos := g.pos + w.attempts;
    g.(st := g.st.(kr := w.kr, p := w.p, q := w.q, pdef := w.pdef, qdef := w.qdef, k := g.st.k + 1),
       kr0 := w.kr, pos := pos, waits := g.waits + [w], readsBefore := g.readsBefore + [pos])
  }

  function AfterSend(g: Progress, out: Written): Progress {
    g.(sent := g.sent + [out])
  }

  /** The load injection, the simulator's end time advanced by one step,
      and on an AGC step the setpoint `AGC_control * ACE.Raw`. */
  function AfterInject(g: Progress, cfg: Config, agcControl: bool, raw: real): Progress
    requires g.st.p.Some? && g.st.q.Some? && cfg.agcSteps > 0
  {
    g.(loads := g.loads + [(Scale(cfg.loadSwitch, g.st.p.value), Scale(cfg.loadSwitch, g.st.q.value))],
       simTf := g.simTf + cfg.tStep,
       paux := if g.st.k % cfg.agcSteps == 0 then g.paux + [Scale(agcControl, raw)] else g.paux)
  }

  /** A successful simulation step: a late step counts as failed, then the
      times and measurements enter `status` and the step is counted. */
  function AfterSim(g: Progress, e: StepEnv, tStep: real): Progress {
    g.(st := g.st.(iterFail := if Late(e, tStep) then g.st.iterFail + 1 else g.st.iterFail,
                   tf := g.simTf, tr := e.tr, tw := e.tw, tsim := e.tsim, freq := e.fBus, v := e.vBus,
                   iterTotal := g.st.iterTotal + 1))
  }

  /** After counter 199 both the status counter and `kr0` restart at 10. */
  function Rebased(g: Progress): Progress {
    if g.st.kr == LastCounter then g.(st := g.st.(kr := CounterBase), kr0 := CounterBase) else g
  }

  // ---- invariants ----

  /** The step read loops chain: each starts where the previous one stopped,
      waits for the counter after its `Base`, and behaves as `StepWaitSpec`
      says. `rb[i]` is the number of reads consumed before the i-th loop. */
  ghost predicate WaitsFollow(files: seq<FileState>, waits: seq<StepWait>, rb: seq<nat>, itermax: nat,
                              testMode: bool)
  {
    |rb| == |waits| + 1
    && (forall i :: 0 <= i <= |waits| ==> rb[i] <= |files|)
    && (forall i :: 0 <= i < |waits| ==> waits[i].StepWait? && rb[i + 1] == rb[i] + waits[i].attempts)
    && (forall i {:trigger StepWaitFrom(files[rb[i]..], Base(waits, i), itermax, testMode)} :: 0 <= i < |waits| ==>
          waits[i] == StepWaitFrom(files[rb[i]..], Base(waits, i), itermax, testMode))
  }

  /** The first `n` rows of the preallocated table hold the recorded steps. */
  ghost predicate RowsRecorded(cfg: Config, env: nat -> StepEnv, waits: seq<StepWait>, table: array2<real>, n: nat)
    reads table
  {
    table.Length0 == cfg.steps && table.Length1 == NCols && n <= cfg.steps && Settled(waits, n)
    && forall i, c :: 0 <= i < n && 0 <= c < NCols ==> table[i, c] == RowOf(cfg, i, waits[i], env(i))[c]
  }

  /** The first `n` read loops each ended with values for `p` and `q`, which
      are also the defaults. */
  ghost predicate Settled(waits: seq<StepWait>, n: nat) {
    n <= |waits|
    && forall i :: 0 <= i < n ==>
         waits[i].StepWait? && waits[i].p.Some? && waits[i].q.Some?
         && waits[i].pdef == waits[i].p && waits[i].qdef == waits[i].q
  }

  /** Each step wrote the measured voltage and frequency. */
  ghost predicate SentAll(env: nat -> StepEnv, sent: seq<Written>) {
    forall i :: 0 <= i < |sent| ==> sent[i] == DataIoWrite(env(i).sink, [env(i).vBus, env(i).fBus])
  }

  /** Each injection is the step's read power, switched by `load_switch`. */
  ghost predicate LoadsAll(cfg: Config, waits: seq<StepWait>, loads: seq<(real, real)>) {
    Settled(waits, |loads|)
    && forall i :: 0 <= i < |loads| ==>
         loads[i] == (Scale(cfg.loadSwitch, waits[i].p.value), Scale(cfg.loadSwitch, waits[i].q.value))
  }

  /** The j-th AGC setpoint is the controller output after the measurements
      of all steps before step `agcSteps * (j + 1)`. */
  ghost predicate PauxAll(cfg: Config, env: nat -> StepEnv, agcControl: bool, paux: seq<real>)
    requires cfg.agcSteps > 0
  {
    forall j :: 0 <= j < |paux| ==>
      paux[j] == Scale(agcControl, Replay(Init(cfg.kp, cfg.ki, 0.0), AcesOf(env, cfg.agcSteps * (j + 1) - 1)).raw)
  }

  /** Every counted step simulated without error, and `iter_fail` counts the
      late ones. */
  ghost predicate SimsAll(cfg: Config, env: nat -> StepEnv, iterTotal: nat, iterFail: nat) {
    (forall i :: 0 <= i < iterTotal ==> env(i).exitCode == 0)
    && iterFail == LateCount(env, iterTotal, cfg.tStep)
  }

  /** In test mode the n-th read loop forces the counter to `11 + n % 189`. */
  ghost predicate TestCounters(testMode: bool, waits: seq<StepWait>, n: nat) {
    n <= |waits|
    && (testMode ==> forall i :: 0 <= i < n ==> waits[i].StepWait? && waits[i].kr == InitCounter + (i + 1) % (LastCounter - CounterBase))
  }

  /** The conditions under which a test-mode run completes: more reads than
      steps, all of them readable, and a simulator and write file that never
      fail. */
  ghost predicate SmoothTest(cfg: Config, files: seq<FileState>, env: nat -> StepEnv, testMode: bool) {
    testMode && |files| > cfg.steps && (forall i :: 0 <= i < |files| ==> Readable(files[i]))
    && (forall i :: 0 <= i < cfg.steps ==> env(i).exitCode == 0 && env(i).sink != OtherOsError)
  }

  /** The loop invariant at the head of `while status['k'] < rows`: the
      counters and clocks, and the logs. */
  ghost predicate Inv(cfg: Config, files: seq<FileState>, env: nat -> StepEnv, testMode: bool, agcControl: bool,
                      used: nat, g: Progress)
    requires cfg.agcSteps > 0
  {
    InvHead(cfg, testMode, g) && InvLogs(cfg, files, env, testMode, agcControl, used, g)
  }

  /** Still running, one read loop per step, every step counted, `kr0` at the
      base, the simulator at `ti + k * t_step`, and in test mode one read per
      step with the counter base `10 + (k + 1) % 189`. */
  ghost predicate InvHead(cfg: Config, testMode: bool, g: Progress) {
    g.ending == Finished && g.st.k <= cfg.steps && g.st.iterTotal == g.st.k && |g.waits| == g.st.k
    && (g.st.k == 0 || g.waits[g.st.k - 1].StepWait?)
    && g.kr0 == g.st.kr == Base(g.waits, g.st.k)
    && g.simTf == EndTime(cfg.ti, cfg.tStep, g.st.k)
    && (testMode ==> g.kr0 == CounterBase + (g.st.k + 1) % (LastCounter - CounterBase) && g.pos == g.st.k + 1)
  }

  /** The logs of a loop still running: every step wrote, injected and
      counted. */
  ghost predicate InvLogs(cfg: Config, files: seq<FileState>, env: nat -> StepEnv, testMode: bool, agcControl: bool,
                          used: nat, g: Progress)
    requires cfg.agcSteps > 0
  {
    |g.sent| == |g.waits| && |g.loads| == |g.waits| && |g.paux| == |g.waits| / cfg.agcSteps
    && WaitsFollow(files, g.waits, g.readsBefore, cfg.itermaxIo, testMode)
    && g.readsBefore[0] == used && g.pos == g.readsBefore[|g.waits|]
    && SentAll(env, g.sent) && (forall i :: 0 <= i < |g.sent| ==> g.sent[i].Written?)
    && LoadsAll(cfg, g.waits, g.loads) && PauxAll(cfg, env, agcControl, g.paux)
    && SimsAll(cfg, env, g.st.iterTotal, g.st.iterFail)
    && TestCounters(testMode, g.waits, g.st.iterTotal)
  }

  /** What holds when the loop is left, however it ends. */
  ghost predicate Final(cfg: Config, files: seq<FileState>, env: nat -> StepEnv, testMode: bool, agcControl: bool,
                        used: nat, g: Progress)
    requires cfg.agcSteps > 0
  {
    FinalLogs(cfg, files, env, testMode, agcControl, used, g) && FinalEnd(cfg, files, env, testMode, g)
  }

  /** The logs when the loop is left: one read loop and one write per
      started step, an injection for each step that got past the write and
      the None check, and a count for each that also simulated. */
  ghost predicate FinalLogs(cfg: Config, files: seq<FileState>, env: nat -> StepEnv, testMode: bool,
                            agcControl: bool, used: nat, g: Progress)
    requires cfg.agcSteps > 0
  {
    var k := g.st.k;
    k <= cfg.steps && |g.waits| == k && |g.sent| == k
    && |g.loads| == (if Aborted(g.ending) then k - 1 else k)
    && |g.paux| == |g.loads| / cfg.agcSteps
    && g.st.iterTotal == (if g.ending == SimFailed then |g.loads| - 1 else |g.loads|)
    && WaitsFollow(files, g.waits, g.readsBefore, cfg.itermaxIo, testMode) && g.readsBefore[0] == used
    && SentAll(env, g.sent) && (forall i :: 0 <= i < |g.loads| ==> g.sent[i].Written?)
    && LoadsAll(cfg, g.waits, g.loads) && PauxAll(cfg, env, agcControl, g.paux)
    && SimsAll(cfg, env, g.st.iterTotal, g.st.iterFail)
    && TestCounters(testMode, g.waits, g.st.iterTotal)
  }

  /** Why the loop was left. */
  ghost predicate FinalEnd(cfg: Config, files: seq<FileState>, env: nat -> StepEnv, testMode: bool, g: Progress) {
    var k := g.st.k;
    k <= |g.waits| && k < |g.readsBefore| && k <= |g.sent|
    && (k == 0 || g.waits[k - 1].StepWait?)
    && (g.ending == WriteRaised ==> k > 0 && g.sent[k - 1].Raised?)
    && (g.ending == NoneInjected ==> k > 0 && g.sent[k - 1].Written? && (g.waits[k - 1].p.None? || g.waits[k - 1].q.None?))
    && (g.ending == SimFailed ==> k > 0 && env(k - 1).exitCode != 0)
    && (g.ending == Finished ==> k == cfg.steps)
    && (g.ending == Starved ==>
          g.readsBefore[k] <= |files| &&
          StepWaitFrom(files[g.readsBefore[k]..], Base(g.waits, k), cfg.itermaxIo, testMode) == StepStarved)
    && (SmoothTest(cfg, files, env, testMode) ==> g.ending == Finished)
  }

  // ---- arithmetic of the counters ----

  /** One more step either completes an AGC interval or stays within it. */
  lemma DivStep(n: nat, d: nat)
    requires d > 0
    ensures (n + 1) % d == 0 ==> (n + 1) / d == n / d + 1 && d * ((n + 1) / d) == n + 1
    ensures (n + 1) % d != 0 ==> (n + 1) / d == n / d
  {
    var q, r := n / d, n % d;
    assert n == d * q + r;
    if r + 1 == d {
      assert d * (q + 1) == d * q + d;
      DivUnique(n + 1, d, q + 1, 0);
    } else {
      DivUnique(n + 1, d, q, r + 1);
    }
  }

  lemma DivUnique(n: nat, d: nat, q: nat, r: nat)
    requires d > 0 && n == d * q + r && r < d
    ensures n / d == q && n % d == r
  {
    var q' := n / d;
    if q' > q {
      MulMono(d, q + 1, q');
    } else if q' < q {
      MulMono(d, q' + 1, q);
    }
  }

  lemma MulMono(d: nat, a: nat, b: nat)
    requires a <= b
    ensures d * a <= d * b
  {
  }

  /** In test mode the base after step `k + 1` is `10 + (k + 2) % 189`. */
  lemma CounterStep(k: nat)
    ensures Wrap(InitCounter + (k + 1) % (LastCounter - CounterBase)) == CounterBase + (k + 2) % (LastCounter - CounterBase)
  {
    var a := (k + 1) % 189;
    DivUnique(k + 1, 189, (k + 1) / 189, a);
    if a == 188 {
      DivUnique(k + 2, 189, (k + 1) / 189 + 1, 0);
    } else {
      DivUnique(k + 2, 189, (k + 1) / 189, a + 1);
    }
  }

  // ---- one step, phase by phase ----

  /** A read loop run from where the previous one stopped extends the chain. */
  lemma ChainExtends(files: seq<FileState>, waits: seq<StepWait>, rb: seq<nat>, pos: nat, w: StepWait, itermax: nat,
                     testMode: bool)
    requires WaitsFollow(files, waits, rb, itermax, testMode) && pos == rb[|waits|]
    requires w.StepWait? && w == StepWaitFrom(files[pos..], Base(waits, |waits|), itermax, testMode)
    requires pos + w.attempts <= |files|
    ensures WaitsFollow(files, waits + [w], rb + [pos + w.attempts], itermax, testMode)
  {
    var n := |waits|;
    var waits', rb' := waits + [w], rb + [pos + w.attempts];
    forall i | 0 <= i <= n + 1
      ensures rb'[i] <= |files|
    {
      if i <= n {
        assert rb'[i] == rb[i];
      }
    }
    forall i | 0 <= i <= n
      ensures waits'[i].StepWait? && rb'[i + 1] == rb'[i] + waits'[i].attempts
    {
      if i < n {
        assert waits'[i] == waits[i] && rb'[i] == rb[i] && rb'[i + 1] == rb[i + 1];
      }
    }
    forall i | 0 <= i <= n
      ensures waits'[i] == StepWaitFrom(files[rb'[i]..], Base(waits', i), itermax, testMode)
    {
      assert rb'[i] == rb[i];
      if i < n {
        assert waits'[i] == waits[i] && Base(waits', i) == Base(waits, i);
      } else {
        assert Base(waits', i) == Base(waits, i);
      }
    }
  }

  /** Appending a wait keeps what was known of the earlier ones. */
  lemma PrefixKept(waits: seq<StepWait>, w: StepWait, n: nat, testMode: bool)
    requires Settled(waits, n) && TestCounters(testMode, waits, n)
    ensures Settled(waits + [w], n) && TestCounters(testMode, waits + [w], n)
  {
    assert forall i :: 0 <= i < |waits| ==> (waits + [w])[i] == waits[i];
  }

  /** What a step's read loop gives the main loop: it follows `StepWaitSpec`
      from the current base, it extends the chain of waits, and its values
      are those of its last attempt. */
  lemma ReadStep(cfg: Config, files: seq<FileState>, env: nat -> StepEnv, testMode: bool,
                 agcControl: bool, used: nat, g: Progress, w: StepWait)
    requires InvHead(cfg, testMode, g) && g.st.k < cfg.steps
    requires WaitsFollow(files, g.waits, g.readsBefore, cfg.itermaxIo, testMode) && g.pos == g.readsBefore[|g.waits|]
    requires Settled(g.waits, g.st.k) && TestCounters(testMode, g.waits, g.st.k)
    requires w == StepWaitSpec(files[g.pos..], g.kr0, g.st.kr, g.st.p, g.st.q, g.st.pdef, g.st.qdef,
                               cfg.itermaxIo, testMode)
    requires w.StepWait?
    ensures 1 <= w.attempts && g.pos + w.attempts <= |files|
    ensures w.pdef == w.p && w.qdef == w.q
    ensures testMode ==> w.attempts == 1 && w.kr == g.kr0 + 1
    ensures WaitsFollow(files, g.waits + [w], g.readsBefore + [g.pos + w.attempts], cfg.itermaxIo, testMode)
    ensures Settled(g.waits + [w], g.st.k) && TestCounters(testMode, g.waits + [w], g.st.k)
    ensures SmoothTest(cfg, files, env, testMode) ==> w.p.Some? && w.q.Some?
  {
    ReadValues(cfg, files, env, testMode, g, w);
    ReadChain(files, testMode, g, w, cfg.itermaxIo);
  }

  /** A read loop run from where the previous one stopped extends the logged
      chain of read loops. */
  lemma ReadChain(files: seq<FileState>, testMode: bool, g: Progress, w: StepWait, itermax: nat)
    requires |g.waits| == g.st.k && (g.st.k == 0 || g.waits[g.st.k - 1].StepWait?) && g.kr0 == Base(g.waits, g.st.k)
    requires WaitsFollow(files, g.waits, g.readsBefore, itermax, testMode) && g.pos == g.readsBefore[|g.waits|]
    requires Settled(g.waits, g.st.k) && TestCounters(testMode, g.waits, g.st.k)
    requires w.StepWait? && w == StepWaitFrom(files[g.pos..], g.kr0, itermax, testMode)
    requires g.pos + w.attempts <= |files|
    ensures WaitsFollow(files, g.waits + [w], g.readsBefore + [g.pos + w.attempts], itermax, testMode)
    ensures Settled(g.waits + [w], g.st.k) && TestCounters(testMode, g.waits + [w], g.st.k)
  {
    ChainExtends(files, g.waits, g.readsBefore, g.pos, w, itermax, testMode);
    PrefixKept(g.waits, w, g.st.k, testMode);
  }

  /** The read loop's own bounds and values, and in a smooth test run the
      values of its one readable read. */
  lemma ReadValues(cfg: Config, files: seq<FileState>, env: nat -> StepEnv, testMode: bool, g: Progress, w: StepWait)
    requires g.st.k < cfg.steps && g.pos <= |files| && g.kr0 == g.st.kr
    requires testMode ==> g.pos == g.st.k + 1
    requires w == StepWaitSpec(files[g.pos..], g.kr0, g.st.kr, g.st.p, g.st.q, g.st.pdef, g.st.qdef,
                               cfg.itermaxIo, testMode)
    requires w.StepWait?
    ensures 1 <= w.attempts && g.pos + w.attempts <= |files|
    ensures w.pdef == w.p && w.qdef == w.q
    ensures testMode ==> w.attempts == 1 && w.kr == g.kr0 + 1
    ensures w == StepWaitFrom(files[g.pos..], g.kr0, cfg.itermaxIo, testMode)
    ensures SmoothTest(cfg, files, env, testMode) ==> w.p.Some? && w.q.Some?
  {
    var fs := files[g.pos..];
    StepWaitBounded(fs, g.kr0, g.st.kr, g.st.p, g.st.q, g.st.pdef, g.st.qdef, cfg.itermaxIo, testMode);
    if SmoothTest(cfg, files, env, testMode) {
      assert fs[0] == files[g.pos];
      AttemptCounter(files[g.pos]);
    }
  }

  /** The reads ran out during a step's read loop. */
  lemma StarvedFinal(cfg: Config, files: seq<FileState>, env: nat -> StepEnv, testMode: bool, agcControl: bool,
                     used: nat, g: Progress, w: StepWait)
    requires cfg.agcSteps > 0 && Inv(cfg, files, env, testMode, agcControl, used, g) && g.st.k < cfg.steps
    requires w == StepWaitSpec(files[g.pos..], g.kr0, g.st.kr, g.st.p, g.st.q, g.st.pdef, g.st.qdef,
                               cfg.itermaxIo, testMode)
    requires w.StepStarved?
    ensures Final(cfg, files, env, testMode, agcControl, used, g.(ending := Starved))
  {
    KeptLogs(cfg, files, env, testMode, agcControl, used, g, Starved);
    StarvedEnd(cfg, files, env, testMode, g, w);
  }

  /** Leaving the loop at its head, or in a read loop, leaves the logs as
      they were. */
  lemma KeptLogs(cfg: Config, files: seq<FileState>, env: nat -> StepEnv, testMode: bool, agcControl: bool,
                 used: nat, g: Progress, e: Ending)
    requires cfg.agcSteps > 0 && Inv(cfg, files, env, testMode, agcControl, used, g)
    requires e == Starved || e == Finished
    ensures FinalLogs(cfg, files, env, testMode, agcControl, used, g.(ending := e))
  {
  }

  lemma StarvedEnd(cfg: Config, files: seq<FileState>, env: nat -> StepEnv, testMode: bool, g: Progress,
                   w: StepWait)
    requires InvHead(cfg, testMode, g) && g.st.k < cfg.steps
    requires |g.readsBefore| == |g.waits| + 1 && |g.sent| == |g.waits|
    requires g.pos == g.readsBefore[g.st.k] <= |files|
    requires w == StepWaitSpec(files[g.pos..], g.kr0, g.st.kr, g.st.p, g.st.q, g.st.pdef, g.st.qdef,
                               cfg.itermaxIo, testMode)
    requires w.StepStarved?
    ensures FinalEnd(cfg, files, env, testMode, g.(ending := Starved))
  {
    StepWaitBounded(files[g.pos..], g.kr0, g.st.kr, g.st.p, g.st.q, g.st.pdef, g.st.qdef, cfg.itermaxIo, testMode);
  }

  /** The write raised, or the read loop left None for the injection. */
  lemma AbortFinal(cfg: Config, files: seq<FileState>, env: nat -> StepEnv, testMode: bool, agcControl: bool,
                   used: nat, g: Progress, w: StepWait, out: Written, ending: Ending)
    requires cfg.agcSteps > 0 && Inv(cfg, files, env, testMode, agcControl, used, g) && g.st.k < cfg.steps
    requires w == StepWaitSpec(files[g.pos..], g.kr0, g.st.kr, g.st.p, g.st.q, g.st.pdef, g.st.qdef,
                               cfg.itermaxIo, testMode)
    requires w.StepWait?
    requires out == DataIoWrite(env(g.st.k).sink, [env(g.st.k).vBus, env(g.st.k).fBus])
    requires (ending == WriteRaised && out.Raised?)
             || (ending == NoneInjected && out.Written? && (w.p.None? || w.q.None?))
    ensures Final(cfg, files, env, testMode, agcControl, used, AfterSend(AfterRead(g, w), out).(ending := ending))
  {
    ReadStep(cfg, files, env, testMode, agcControl, used, g, w);
    AbortLogs(cfg, files, env, testMode, agcControl, used, g, w, out, ending);
    AbortEnd(cfg, files, env, testMode, g, w, out, ending);
  }

  lemma AbortLogs(cfg: Config, files: seq<FileState>, env: nat -> StepEnv, testMode: bool, agcControl: bool,
                  used: nat, g: Progress, w: StepWait, out: Written, ending: Ending)
    requires cfg.agcSteps > 0 && g.st.k < cfg.steps && g.st.iterTotal == g.st.k == |g.waits|
    requires |g.sent| == |g.loads| == |g.waits| && |g.paux| == |g.waits| / cfg.agcSteps
    requires |g.readsBefore| > 0 && g.readsBefore[0] == used
    requires SentAll(env, g.sent) && (forall i :: 0 <= i < |g.sent| ==> g.sent[i].Written?)
    requires LoadsAll(cfg, g.waits, g.loads) && PauxAll(cfg, env, agcControl, g.paux)
    requires SimsAll(cfg, env, g.st.iterTotal, g.st.iterFail)
    requires w.StepWait? && Aborted(ending)
    requires WaitsFollow(files, g.waits + [w], g.readsBefore + [g.pos + w.attempts], cfg.itermaxIo, testMode)
    requires Settled(g.waits + [w], g.st.k) && TestCounters(testMode, g.waits + [w], g.st.k)
    requires out == DataIoWrite(env(g.st.k).sink, [env(g.st.k).vBus, env(g.st.k).fBus])
    ensures FinalLogs(cfg, files, env, testMode, agcControl, used, AfterSend(AfterRead(g, w), out).(ending := ending))
  {
    SentExtends(env, g.sent, out);
    LoadsKeep(cfg, g.waits, g.loads, w);
    var g' := AfterSend(AfterRead(g, w), out);
    assert g'.waits == g.waits + [w] && g'.readsBefore == g.readsBefore + [g.pos + w.attempts];
    assert forall i :: 0 <= i < |g.sent| ==> g'.sent[i] == g.sent[i];
  }

  lemma AbortEnd(cfg: Config, files: seq<FileState>, env: nat -> StepEnv, testMode: bool, g: Progress, w: StepWait,
                 out: Written, ending: Ending)
    requires InvHead(cfg, testMode, g) && g.st.k < cfg.steps && |g.readsBefore| == |g.waits| + 1
    requires |g.sent| == |g.waits|
    requires w.StepWait?
    requires SmoothTest(cfg, files, env, testMode) ==> w.p.Some? && w.q.Some?
    requires out == DataIoWrite(env(g.st.k).sink, [env(g.st.k).vBus, env(g.st.k).fBus])
    requires (ending == WriteRaised && out.Raised?)
             || (ending == NoneInjected && out.Written? && (w.p.None? || w.q.None?))
    ensures FinalEnd(cfg, files, env, testMode, AfterSend(AfterRead(g, w), out).(ending := ending))
  {
    var g' := AfterSend(AfterRead(g, w), out);
    assert g'.waits[g.st.k] == w && g'.sent[g.st.k] == out;
  }

  lemma SentExtends(env: nat -> StepEnv, sent: seq<Written>, out: Written)
    requires SentAll(env, sent)
    requires out == DataIoWrite(env(|sent|).sink, [env(|sent|).vBus, env(|sent|).fBus])
    ensures SentAll(env, sent + [out])
  {
    assert forall i :: 0 <= i < |sent| ==> (sent + [out])[i] == sent[i];
  }

  lemma LoadsKeep(cfg: Config, waits: seq<StepWait>, loads: seq<(real, real)>, w: StepWait)
    requires LoadsAll(cfg, waits, loads)
    ensures LoadsAll(cfg, waits + [w], loads)
  {
    assert forall i :: 0 <= i < |waits| ==> (waits + [w])[i] == waits[i];
  }

  /** The simulator failed: the step's injection and AGC setpoint happened,
      the step is not counted. */
  lemma SimFailedFinal(cfg: Config, files: seq<FileState>, env: nat -> StepEnv, testMode: bool, agcControl: bool,
                       used: nat, g: Progress, w: StepWait, out: Written, raw: real)
    requires cfg.agcSteps > 0 && Inv(cfg, files, env, testMode, agcControl, used, g) && g.st.k < cfg.steps
    requires w == StepWaitSpec(files[g.pos..], g.kr0, g.st.kr, g.st.p, g.st.q, g.st.pdef, g.st.qdef,
                               cfg.itermaxIo, testMode)
    requires w.StepWait? && w.p.Some? && w.q.Some?
    requires out == DataIoWrite(env(g.st.k).sink, [env(g.st.k).vBus, env(g.st.k).fBus]) && out.Written?
    requires raw == Replay(Init(cfg.kp, cfg.ki, 0.0), AcesOf(env, g.st.k)).raw
    requires env(g.st.k).exitCode != 0
    ensures Final(cfg, files, env, testMode, agcControl, used,
                  AfterInject(AfterSend(AfterRead(g, w), out), cfg, agcControl, raw).(ending := SimFailed))
  {
    ReadStep(cfg, files, env, testMode, agcControl, used, g, w);
    InjectStep(cfg, env, agcControl, g, w, out, raw);
    SimFailedLogs(cfg, files, env, testMode, agcControl, used, g, w, out, raw);
    SimFailedEnd(cfg, files, env, testMode, agcControl, g, w, out, raw);
  }

  lemma SimFailedLogs(cfg: Config, files: seq<FileState>, env: nat -> StepEnv, testMode: bool, agcControl: bool,
                      used: nat, g: Progress, w: StepWait, out: Written, raw: real)
    requires cfg.agcSteps > 0 && w.StepWait? && w.p.Some? && w.q.Some?
    requires g.st.k < cfg.steps && g.st.iterTotal == g.st.k == |g.waits| && |g.readsBefore| > 0
    requires g.readsBefore[0] == used
    requires WaitsFollow(files, g.waits + [w], g.readsBefore + [g.pos + w.attempts], cfg.itermaxIo, testMode)
    requires Settled(g.waits + [w], g.st.k) && TestCounters(testMode, g.waits + [w], g.st.k)
    requires SimsAll(cfg, env, g.st.iterTotal, g.st.iterFail)
    requires var g' := AfterInject(AfterSend(AfterRead(g, w), out), cfg, agcControl, raw);
             |g'.sent| == |g'.loads| == g.st.k + 1 && |g'.paux| == (g.st.k + 1) / cfg.agcSteps
             && SentAll(env, g'.sent) && (forall i :: 0 <= i < |g'.sent| ==> g'.sent[i].Written?)
             && LoadsAll(cfg, g'.waits, g'.loads) && PauxAll(cfg, env, agcControl, g'.paux)
    ensures FinalLogs(cfg, files, env, testMode, agcControl, used,
                      AfterInject(AfterSend(AfterRead(g, w), out), cfg, agcControl, raw).(ending := SimFailed))
  {
    var g' := AfterInject(AfterSend(AfterRead(g, w), out), cfg, agcControl, raw);
    assert g'.waits == g.waits + [w] && g'.readsBefore == g.readsBefore + [g.pos + w.attempts];
    assert g'.st.iterTotal == g.st.iterTotal && g'.st.iterFail == g.st.iterFail;
  }

  lemma SimFailedEnd(cfg: Config, files: seq<FileState>, env: nat -> StepEnv, testMode: bool, agcControl: bool,
                     g: Progress, w: StepWait, out: Written, raw: real)
    requires cfg.agcSteps > 0 && w.StepWait? && w.p.Some? && w.q.Some?
    requires g.st.k < cfg.steps && g.st.k == |g.waits| && |g.readsBefore| == |g.waits| + 1 && |g.sent| == |g.waits|
    requires env(g.st.k).exitCode != 0
    ensures FinalEnd(cfg, files, env, testMode,
                     AfterInject(AfterSend(AfterRead(g, w), out), cfg, agcControl, raw).(ending := SimFailed))
  {
    var g' := AfterInject(AfterSend(AfterRead(g, w), out), cfg, agcControl, raw);
    assert g'.waits[g.st.k] == w;
  }

  /** The send and injection phases keep the logs in step with the waits. */
  lemma InjectStep(cfg: Config, env: nat -> StepEnv, agcControl: bool, g: Progress, w: StepWait, out: Written, raw: real)
    requires cfg.agcSteps > 0 && w.StepWait? && w.p.Some? && w.q.Some? && w.pdef == w.p && w.qdef == w.q
    requires |g.waits| == |g.sent| == |g.loads| == g.st.k && |g.paux| == g.st.k / cfg.agcSteps
    requires SentAll(env, g.sent) && (forall i :: 0 <= i < |g.sent| ==> g.sent[i].Written?)
    requires LoadsAll(cfg, g.waits, g.loads) && PauxAll(cfg, env, agcControl, g.paux)
    requires out == DataIoWrite(env(g.st.k).sink, [env(g.st.k).vBus, env(g.st.k).fBus]) && out.Written?
    requires raw == Replay(Init(cfg.kp, cfg.ki, 0.0), AcesOf(env, g.st.k)).raw
    ensures var g' := AfterInject(AfterSend(AfterRead(g, w), out), cfg, agcControl, raw);
            |g'.sent| == |g'.loads| == g.st.k + 1 && |g'.paux| == (g.st.k + 1) / cfg.agcSteps
            && SentAll(env, g'.sent) && (forall i :: 0 <= i < |g'.sent| ==> g'.sent[i].Written?)
            && LoadsAll(cfg, g'.waits, g'.loads) && PauxAll(cfg, env, agcControl, g'.paux)
  {
    var g' := AfterInject(AfterSend(AfterRead(g, w), out), cfg, agcControl, raw);
    assert g'.sent == g.sent + [out] && g'.waits == g.waits + [w];
    assert g'.loads == g.loads + [(Scale(cfg.loadSwitch, w.p.value), Scale(cfg.loadSwitch, w.q.value))];
    assert g'.paux == if (g.st.k + 1) % cfg.agcSteps == 0 then g.paux + [Scale(agcControl, raw)] else g.paux;
    SentExtends(env, g.sent, out);
    assert forall i :: 0 <= i < |g.sent| ==> g'.sent[i] == g.sent[i];
    LoadsExtend(cfg, g.waits, g.loads, w);
    PauxStep(cfg, env, agcControl, g.paux, g.st.k, raw);
  }

  /** The injection of a step with values for `p` and `q`. */
  lemma LoadsExtend(cfg: Config, waits: seq<StepWait>, loads: seq<(real, real)>, w: StepWait)
    requires |loads| == |waits| && LoadsAll(cfg, waits, loads)
    requires w.StepWait? && w.p.Some? && w.q.Some? && w.pdef == w.p && w.qdef == w.q
    ensures LoadsAll(cfg, waits + [w], loads + [(Scale(cfg.loadSwitch, w.p.value), Scale(cfg.loadSwitch, w.q.value))])
  {
    assert forall i :: 0 <= i < |waits| ==> (waits + [w])[i] == waits[i];
  }

  /** An AGC step appends the controller output after the measurements of
      all earlier steps; other steps leave the setpoints alone. */
  lemma PauxStep(cfg: Config, env: nat -> StepEnv, agcControl: bool, paux: seq<real>, k: nat, raw: real)
    requires cfg.agcSteps > 0 && |paux| == k / cfg.agcSteps && PauxAll(cfg, env, agcControl, paux)
    requires raw == Replay(Init(cfg.kp, cfg.ki, 0.0), AcesOf(env, k)).raw
    ensures var paux' := if (k + 1) % cfg.agcSteps == 0 then paux + [Scale(agcControl, raw)] else paux;
            |paux'| == (k + 1) / cfg.agcSteps && PauxAll(cfg, env, agcControl, paux')
  {
    DivStep(k, cfg.agcSteps);
    if (k + 1) % cfg.agcSteps == 0 {
      assert cfg.agcSteps * (|paux| + 1) - 1 == k;
      assert forall j :: 0 <= j < |paux| ==> (paux + [Scale(agcControl, raw)])[j] == paux[j];
    }
  }

  /** The state after a step that read, wrote, injected and simulated. */
  function Stepped(g: Progress, cfg: Config, agcControl: bool, w: StepWait, out: Written, raw: real, e: StepEnv)
    : Progress
    requires cfg.agcSteps > 0 && w.StepWait? && w.p.Some? && w.q.Some?
  {
    Rebased(AfterSim(AfterInject(AfterSend(AfterRead(g, w), out), cfg, agcControl, raw), e, cfg.tStep))
  }

  /** A completed step counts one more step and one more read loop. */
  lemma SteppedCounts(g: Progress, cfg: Config, agcControl: bool, w: StepWait, out: Written, raw: real, e: StepEnv)
    requires cfg.agcSteps > 0 && w.StepWait? && w.p.Some? && w.q.Some?
    ensures Stepped(g, cfg, agcControl, w, out, raw, e).st.k == g.st.k + 1
    ensures Stepped(g, cfg, agcControl, w, out, raw, e).waits == g.waits + [w]
  {
  }

  /** A completed step re-establishes the loop invariant. */
  lemma StepInv(cfg: Config, files: seq<FileState>, env: nat -> StepEnv, testMode: bool, agcControl: bool,
                used: nat, g: Progress, w: StepWait, out: Written, raw: real)
    requires cfg.agcSteps > 0 && Inv(cfg, files, env, testMode, agcControl, used, g) && g.st.k < cfg.steps
    requires w == StepWaitSpec(files[g.pos..], g.kr0, g.st.kr, g.st.p, g.st.q, g.st.pdef, g.st.qdef,
                               cfg.itermaxIo, testMode)
    requires w.StepWait? && w.p.Some? && w.q.Some?
    requires out == DataIoWrite(env(g.st.k).sink, [env(g.st.k).vBus, env(g.st.k).fBus]) && out.Written?
    requires raw == Replay(Init(cfg.kp, cfg.ki, 0.0), AcesOf(env, g.st.k)).raw
    requires env(g.st.k).exitCode == 0
    ensures Inv(cfg, files, env, testMode, agcControl, used, Stepped(g, cfg, agcControl, w, out, raw, env(g.st.k)))
  {
    ReadStep(cfg, files, env, testMode, agcControl, used, g, w);
    StepHead(cfg, testMode, agcControl, g, w, out, raw, env(g.st.k));
    StepLogs(cfg, files, env, testMode, agcControl, used, g, w, out, raw);
  }

  /** The counters and clocks after a completed step. */
  lemma StepHead(cfg: Config, testMode: bool, agcControl: bool, g: Progress, w: StepWait, out: Written, raw: real,
                 e: StepEnv)
    requires cfg.agcSteps > 0 && InvHead(cfg, testMode, g) && g.st.k < cfg.steps
    requires w.StepWait? && w.p.Some? && w.q.Some?
    requires testMode ==> w.attempts == 1 && w.kr == g.kr0 + 1
    ensures InvHead(cfg, testMode, Stepped(g, cfg, agcControl, w, out, raw, e))
  {
    var k := g.st.k;
    var waits := g.waits + [w];
    assert waits[k] == w;
    if testMode {
      CounterStep(k);
    }
  }

  /** The logs after a completed step. */
  lemma StepLogs(cfg: Config, files: seq<FileState>, env: nat -> StepEnv, testMode: bool, agcControl: bool,
                 used: nat, g: Progress, w: StepWait, out: Written, raw: real)
    requires cfg.agcSteps > 0 && InvLogs(cfg, files, env, testMode, agcControl, used, g)
    requires g.st.iterTotal == g.st.k == |g.waits|
    requires w.StepWait? && w.p.Some? && w.q.Some? && w.pdef == w.p && w.qdef == w.q
    requires WaitsFollow(files, g.waits + [w], g.readsBefore + [g.pos + w.attempts], cfg.itermaxIo, testMode)
    requires testMode ==> w.kr == InitCounter + (|g.waits| + 1) % (LastCounter - CounterBase)
    requires out == DataIoWrite(env(|g.waits|).sink, [env(|g.waits|).vBus, env(|g.waits|).fBus]) && out.Written?
    requires raw == Replay(Init(cfg.kp, cfg.ki, 0.0), AcesOf(env, |g.waits|)).raw
    requires env(|g.waits|).exitCode == 0
    ensures InvLogs(cfg, files, env, testMode, agcControl, used, Stepped(g, cfg, agcControl, w, out, raw, env(|g.waits|)))
  {
    StepOutputs(cfg, env, agcControl, g, w, out, raw);
    StepChain(cfg, files, testMode, agcControl, used, g, w, out, raw, env(|g.waits|));
    StepSims(cfg, env, testMode, agcControl, g, w, out, raw);
  }

  /** The new read loop extends the chain of waits. */
  lemma StepChain(cfg: Config, files: seq<FileState>, testMode: bool, agcControl: bool, used: nat, g: Progress,
                  w: StepWait, out: Written, raw: real, e: StepEnv)
    requires cfg.agcSteps > 0 && w.StepWait? && w.p.Some? && w.q.Some? && |g.readsBefore| > 0
    requires g.readsBefore[0] == used
    requires WaitsFollow(files, g.waits + [w], g.readsBefore + [g.pos + w.attempts], cfg.itermaxIo, testMode)
    ensures var g' := Stepped(g, cfg, agcControl, w, out, raw, e);
            WaitsFollow(files, g'.waits, g'.readsBefore, cfg.itermaxIo, testMode)
            && g'.readsBefore[0] == used && g'.pos == g'.readsBefore[|g'.waits|]
  {
    var g' := Stepped(g, cfg, agcControl, w, out, raw, e);
    assert g'.waits == g.waits + [w] && g'.readsBefore == g.readsBefore + [g.pos + w.attempts];
  }

  /** The step is counted, and in test mode its counter follows the formula. */
  lemma StepSims(cfg: Config, env: nat -> StepEnv, testMode: bool, agcControl: bool, g: Progress, w: StepWait,
                 out: Written, raw: real)
    requires cfg.agcSteps > 0 && w.StepWait? && w.p.Some? && w.q.Some?
    requires g.st.iterTotal == |g.waits| && SimsAll(cfg, env, g.st.iterTotal, g.st.iterFail)
    requires env(|g.waits|).exitCode == 0
    requires TestCounters(testMode, g.waits, |g.waits|)
    requires testMode ==> w.kr == InitCounter + (|g.waits| + 1) % (LastCounter - CounterBase)
    ensures var g' := Stepped(g, cfg, agcControl, w, out, raw, env(|g.waits|));
            SimsAll(cfg, env, g'.st.iterTotal, g'.st.iterFail) && TestCounters(testMode, g'.waits, g'.st.iterTotal)
  {
    SimsExtend(cfg, env, g.st.iterTotal, g.st.iterFail);
    StepCounters(testMode, g.waits, w);
  }

  /** The writes, injections and AGC setpoints after a completed step. */
  lemma StepOutputs(cfg: Config, env: nat -> StepEnv, agcControl: bool, g: Progress, w: StepWait, out: Written,
                    raw: real)
    requires cfg.agcSteps > 0 && w.StepWait? && w.p.Some? && w.q.Some? && w.pdef == w.p && w.qdef == w.q
    requires |g.waits| == |g.sent| == |g.loads| == g.st.k && |g.paux| == g.st.k / cfg.agcSteps
    requires SentAll(env, g.sent) && (forall i :: 0 <= i < |g.sent| ==> g.sent[i].Written?)
    requires LoadsAll(cfg, g.waits, g.loads) && PauxAll(cfg, env, agcControl, g.paux)
    requires out == DataIoWrite(env(g.st.k).sink, [env(g.st.k).vBus, env(g.st.k).fBus]) && out.Written?
    requires raw == Replay(Init(cfg.kp, cfg.ki, 0.0), AcesOf(env, g.st.k)).raw
    ensures var g' := Stepped(g, cfg, agcControl, w, out, raw, env(g.st.k));
            |g'.sent| == |g'.loads| == g.st.k + 1 && |g'.paux| == (g.st.k + 1) / cfg.agcSteps
            && SentAll(env, g'.sent) && (forall i :: 0 <= i < |g'.sent| ==> g'.sent[i].Written?)
            && LoadsAll(cfg, g'.waits, g'.loads) && PauxAll(cfg, env, agcControl, g'.paux)
  {
    InjectStep(cfg, env, agcControl, g, w, out, raw);
  }

  /** In test mode the new read loop's counter continues the formula. */
  lemma StepCounters(testMode: bool, waits: seq<StepWait>, w: StepWait)
    requires TestCounters(testMode, waits, |waits|)
    requires testMode ==> w.StepWait? && w.kr == InitCounter + (|waits| + 1) % (LastCounter - CounterBase)
    ensures TestCounters(testMode, waits + [w], |waits| + 1)
  {
    assert forall i :: 0 <= i < |waits| ==> (waits + [w])[i] == waits[i];
  }

  /** A step that simulated without error is counted, and counted as failed
      when it was late. */
  lemma SimsExtend(cfg: Config, env: nat -> StepEnv, n: nat, fails: nat)
    requires SimsAll(cfg, env, n, fails) && env(n).exitCode == 0
    ensures SimsAll(cfg, env, n + 1, if Late(env(n), cfg.tStep) then fails + 1 else fails)
  {
  }

  /** The loop condition failed: all `rows` steps ran. */
  lemma FinishedFinal(cfg: Config, files: seq<FileState>, env: nat -> StepEnv, testMode: bool, agcControl: bool,
                      used: nat, g: Progress)
    requires cfg.agcSteps > 0 && Inv(cfg, files, env, testMode, agcControl, used, g) && g.st.k >= cfg.steps
    ensures Final(cfg, files, env, testMode, agcControl, used, g)
  {
  }

  // ---- the loop body and the run ----

  /** The `ACEObj` of the run after the measurements of the first `n` steps. */
  ghost predicate AceAfter(cfg: Config, env: nat -> StepEnv, ace: AceObj, n: nat)
    reads ace
  {
    ace.Valid() && ace.I0 == 0.0 && ace.Kp == cfg.kp && ace.Ki == cfg.ki && ace.Inputs == AcesOf(env, n)
  }

  /** One pass of the loop body, `try` block included: the read loop, the
      write, the injection and AGC setpoint, the simulation, the controller
      update, the record and the counter wrap. A result still `Finished`
      means the loop goes on. */
  method RunStep(cfg: Config, files: seq<FileState>, env: nat -> StepEnv, testMode: bool, agcControl: bool,
                 used: nat, g: Progress, ace: AceObj, table: array2<real>)
    returns (g': Progress)
    requires cfg.agcSteps > 0 && Inv(cfg, files, env, testMode, agcControl, used, g) && g.st.k < cfg.steps
    requires AceAfter(cfg, env, ace, g.st.k) && RowsRecorded(cfg, env, g.waits, table, g.st.k)
    modifies ace, table
    ensures g'.ending == Finished ==>
              Inv(cfg, files, env, testMode, agcControl, used, g') && g'.st.k == g.st.k + 1
              && AceAfter(cfg, env, ace, g'.st.k) && RowsRecorded(cfg, env, g'.waits, table, g'.st.k)
    ensures g'.ending != Finished ==>
              Final(cfg, files, env, testMode, agcControl, used, g')
              && RowsRecorded(cfg, env, g'.waits, table, g'.st.iterTotal)
  {
    var k := g.st.k;
    var w := AwaitStep(files[g.pos..], g.kr0, g.st.kr, g.st.p, g.st.q, g.st.pdef, g.st.qdef, cfg.itermaxIo, testMode);
    if w.StepStarved? {
      StarvedFinal(cfg, files, env, testMode, agcControl, used, g, w);
      return g.(ending := Starved);
    }
    g' := SendStep(cfg, files, env, testMode, agcControl, used, g, w, ace, table);
  }

  /** The loop body after a read loop that saw its counter: the write, the
      None check, and the rest of the step. */
  method SendStep(cfg: Config, files: seq<FileState>, env: nat -> StepEnv, testMode: bool, agcControl: bool,
                  used: nat, g: Progress, w: StepWait, ace: AceObj, table: array2<real>)
    returns (g': Progress)
    requires cfg.agcSteps > 0 && Inv(cfg, files, env, testMode, agcControl, used, g) && g.st.k < cfg.steps
    requires w == StepWaitSpec(files[g.pos..], g.kr0, g.st.kr, g.st.p, g.st.q, g.st.pdef, g.st.qdef,
                               cfg.itermaxIo, testMode)
    requires w.StepWait?
    requires AceAfter(cfg, env, ace, g.st.k) && RowsRecorded(cfg, env, g.waits, table, g.st.k)
    modifies ace, table
    ensures g'.ending == Finished ==>
              Inv(cfg, files, env, testMode, agcControl, used, g') && g'.st.k == g.st.k + 1
              && AceAfter(cfg, env, ace, g'.st.k) && RowsRecorded(cfg, env, g'.waits, table, g'.st.k)
    ensures g'.ending != Finished ==>
              Final(cfg, files, env, testMode, agcControl, used, g')
              && RowsRecorded(cfg, env, g'.waits, table, g'.st.iterTotal)
  {
    var k := g.st.k;
    ReadStep(cfg, files, env, testMode, agcControl, used, g, w);
    var e := env(k);
    var out := DataIoWrite(e.sink, [e.vBus, e.fBus]);
    if out.Raised? {
      AbortFinal(cfg, files, env, testMode, agcControl, used, g, w, out, WriteRaised);
      g' := AfterSend(AfterRead(g, w), out).(ending := WriteRaised);
      KeptRows(cfg, env, g.waits, w, table, k);
      return;
    }
    if w.p.None? || w.q.None? {
      AbortFinal(cfg, files, env, testMode, agcControl, used, g, w, out, NoneInjected);
      g' := AfterSend(AfterRead(g, w), out).(ending := NoneInjected);
      KeptRows(cfg, env, g.waits, w, table, k);
      return;
    }
    g' := SimulateStep(cfg, files, env, testMode, agcControl, used, g, w, out, ace, table);
  }

  /** The rest of the loop body once the injection is a number: inject,
      set the AGC setpoint, simulate, update the controller, record, wrap. */
  method SimulateStep(cfg: Config, files: seq<FileState>, env: nat -> StepEnv, testMode: bool, agcControl: bool,
                      used: nat, g: Progress, w: StepWait, out: Written, ace: AceObj, table: array2<real>)
    returns (g': Progress)
    requires cfg.agcSteps > 0 && Inv(cfg, files, env, testMode, agcControl, used, g) && g.st.k < cfg.steps
    requires w == StepWaitSpec(files[g.pos..], g.kr0, g.st.kr, g.st.p, g.st.q, g.st.pdef, g.st.qdef,
                               cfg.itermaxIo, testMode)
    requires w.StepWait? && w.p.Some? && w.q.Some? && w.pdef == w.p && w.qdef == w.q
    requires out == DataIoWrite(env(g.st.k).sink, [env(g.st.k).vBus, env(g.st.k).fBus]) && out.Written?
    requires AceAfter(cfg, env, ace, g.st.k) && RowsRecorded(cfg, env, g.waits, table, g.st.k)
    modifies ace, table
    ensures g'.ending == Finished || g'.ending == SimFailed
    ensures g'.ending == Finished ==>
              Inv(cfg, files, env, testMode, agcControl, used, g') && g'.st.k == g.st.k + 1
              && AceAfter(cfg, env, ace, g'.st.k) && RowsRecorded(cfg, env, g'.waits, table, g'.st.k)
    ensures g'.ending == SimFailed ==>
              Final(cfg, files, env, testMode, agcControl, used, g')
              && RowsRecorded(cfg, env, g'.waits, table, g'.st.iterTotal)
  {
    var k := g.st.k;
    var e := env(k);
    var raw := ace.Raw;
    var g3 := AfterInject(AfterSend(AfterRead(g, w), out), cfg, agcControl, raw);
    if e.exitCode != 0 {
      SimFailedFinal(cfg, files, env, testMode, agcControl, used, g, w, out, raw);
      KeptRows(cfg, env, g.waits, w, table, k);
      return g3.(ending := SimFailed);
    }
    g' := CompleteStep(cfg, files, env, testMode, agcControl, used, g, w, out, raw, ace, table);
  }

  /** A successful simulation: update the controller, record the row, wrap
      the counter. */
  method CompleteStep(cfg: Config, files: seq<FileState>, env: nat -> StepEnv, testMode: bool, agcControl: bool,
                      used: nat, g: Progress, w: StepWait, out: Written, raw: real, ace: AceObj, table: array2<real>)
    returns (g': Progress)
    requires cfg.agcSteps > 0 && Inv(cfg, files, env, testMode, agcControl, used, g) && g.st.k < cfg.steps
    requires w == StepWaitSpec(files[g.pos..], g.kr0, g.st.kr, g.st.p, g.st.q, g.st.pdef, g.st.qdef,
                               cfg.itermaxIo, testMode)
    requires w.StepWait? && w.p.Some? && w.q.Some? && w.pdef == w.p && w.qdef == w.q
    requires out == DataIoWrite(env(g.st.k).sink, [env(g.st.k).vBus, env(g.st.k).fBus]) && out.Written?
    requires raw == Replay(Init(cfg.kp, cfg.ki, 0.0), AcesOf(env, g.st.k)).raw
    requires env(g.st.k).exitCode == 0
    requires AceAfter(cfg, env, ace, g.st.k) && RowsRecorded(cfg, env, g.waits, table, g.st.k)
    modifies ace, table
    ensures g' == Stepped(g, cfg, agcControl, w, out, raw, env(g.st.k))
    ensures Inv(cfg, files, env, testMode, agcControl, used, g') && g'.st.k == g.st.k + 1
    ensures AceAfter(cfg, env, ace, g'.st.k) && RowsRecorded(cfg, env, g'.waits, table, g'.st.k)
  {
    var k := g.st.k;
    UpdateAndRecord(cfg, env, g.waits, w, ace, table, RowOf(cfg, k, w, env(k)));
    g' := Stepped(g, cfg, agcControl, w, out, raw, env(k));
    SteppedCounts(g, cfg, agcControl, w, out, raw, env(k));
    StepInv(cfg, files, env, testMode, agcControl, used, g, w, out, raw);
  }

  /** `ACE.update(ACEc)` and the row of the step written to the table. */
  method UpdateAndRecord(cfg: Config, env: nat -> StepEnv, waits: seq<StepWait>, w: StepWait, ace: AceObj,
                         table: array2<real>, row: seq<real>)
    requires AceAfter(cfg, env, ace, |waits|) && RowsRecorded(cfg, env, waits, table, |waits|) && |waits| < cfg.steps
    requires w.StepWait? && w.p.Some? && w.q.Some? && w.pdef == w.p && w.qdef == w.q
    requires row == RowOf(cfg, |waits|, w, env(|waits|))
    modifies ace, table
    ensures AceAfter(cfg, env, ace, |waits| + 1) && RowsRecorded(cfg, env, waits + [w], table, |waits| + 1)
  {
    var _ := ace.Update(env(|waits|).ace);
    assert ace.Inputs == AcesOf(env, |waits| + 1);
    RecordRow(cfg, env, waits, w, table, row);
  }

  /** The row recorded for a step: the read loop's counter and powers, the
      step number, the measurements and durations, and the simulator's end
      time. */
  lemma RecordedRow(cfg: Config, agcControl: bool, g: Progress, w: StepWait, out: Written, raw: real, e: StepEnv)
    requires cfg.agcSteps > 0 && g.simTf == EndTime(cfg.ti, cfg.tStep, g.st.k)
    requires w.StepWait? && w.p.Some? && w.q.Some? && w.pdef == w.p && w.qdef == w.q
    ensures Recorded(AfterSim(AfterInject(AfterSend(AfterRead(g, w), out), cfg, agcControl, raw), e, cfg.tStep).st)
         == RowOf(cfg, g.st.k, w, e)
  {
  }

  /** `cosim_data[k-1, :] = ...`: the table holds one more recorded step. */
  method RecordRow(cfg: Config, env: nat -> StepEnv, waits: seq<StepWait>, w: StepWait, table: array2<real>,
                   row: seq<real>)
    requires RowsRecorded(cfg, env, waits, table, |waits|) && |waits| < cfg.steps
    requires w.StepWait? && w.p.Some? && w.q.Some? && w.pdef == w.p && w.qdef == w.q
    requires row == RowOf(cfg, |waits|, w, env(|waits|))
    modifies table
    ensures RowsRecorded(cfg, env, waits + [w], table, |waits| + 1)
  {
    WriteRow(table, |waits|, row);
    assert forall i :: 0 <= i < |waits| ==> (waits + [w])[i] == waits[i];
  }

  /** Rows recorded before a step are still those of the first steps once
      the step's read loop is logged. */
  lemma KeptRows(cfg: Config, env: nat -> StepEnv, waits: seq<StepWait>, w: StepWait, table: array2<real>, n: nat)
    requires RowsRecorded(cfg, env, waits, table, n)
    ensures RowsRecorded(cfg, env, waits + [w], table, n)
  {
    assert forall i :: 0 <= i < |waits| ==> (waits + [w])[i] == waits[i];
  }

  /** A row of the saved table: the recorded columns and `tall = tw + tr + tsim`. */
  function Saved(row: seq<real>): seq<real>
    requires |row| == NCols
  {
    row + [row[TW] + row[TR] + row[TSIM]]
  }

  /** `cosim_data[i, :]` as a sequence. */
  ghost function RowAt(table: array2<real>, i: nat): (row: seq<real>)
    requires i < table.Length0
    reads table
    ensures |row| == table.Length1 && forall c :: 0 <= c < table.Length1 ==> row[c] == table[i, c]
  {
    seq(table.Length1, c requires 0 <= c < table.Length1 reads table => table[i, c])
  }

  /** The table `run` saves: one row per counted step, each the recorded row
      of that step with its `tall` column. */
  ghost predicate SavedTable(cfg: Config, env: nat -> StepEnv, waits: seq<StepWait>, rows: seq<seq<real>>, n: nat) {
    |rows| == n && Settled(waits, n)
    && forall i :: 0 <= i < n ==> rows[i] == Saved(RowOf(cfg, i, waits[i], env(i)))
  }

  /** `pd.DataFrame(data=cosim_data[:n])` with the `tall` column added. */
  method SavedRows(table: array2<real>, n: nat) returns (rows: seq<seq<real>>)
    requires n <= table.Length0 && table.Length1 == NCols
    ensures |rows| == n && forall i :: 0 <= i < n ==> rows[i] == Saved(RowAt(table, i))
  {
    rows := [];
    var i := 0;
    while i < n
      invariant i <= n && |rows| == i
      invariant forall j :: 0 <= j < i ==> rows[j] == Saved(RowAt(table, j))
    {
      var row := [];
      var c := 0;
      while c < NCols
        invariant c <= NCols && row == RowAt(table, i)[..c]
      {
        row := row + [table[i, c]];
        c := c + 1;
      }
      assert row == RowAt(table, i);
      rows := rows + [Saved(row)];
      i := i + 1;
    }
  }

  /** The table rows recorded so far are the rows of the steps. */
  lemma SavedRecorded(cfg: Config, env: nat -> StepEnv, waits: seq<StepWait>, table: array2<real>, n: nat,
                      rows: seq<seq<real>>)
    requires RowsRecorded(cfg, env, waits, table, n)
    requires |rows| == n && forall i :: 0 <= i < n ==> rows[i] == Saved(RowAt(table, i))
    ensures SavedTable(cfg, env, waits, rows, n)
  {
    forall i | 0 <= i < n
      ensures RowAt(table, i) == RowOf(cfg, i, waits[i], env(i))
    {
    }
  }

  /** The init loop, when it ends, has seen counter 11 after at most all the
      reads, and after exactly one in test mode. */
  lemma InitFacts(files: seq<FileState>, testMode: bool, iw: InitWait)
    requires iw == InitWaitSpec(files, InitialStatus.kr, InitialStatus.p, InitialStatus.q, testMode) && iw.InitWait?
    ensures iw.kr == InitCounter && 1 <= iw.used <= |files| && (testMode ==> iw.used == 1)
  {
  }

  /** The loop invariant holds once the init loop has seen counter 11. */
  lemma InitInv(cfg: Config, files: seq<FileState>, env: nat -> StepEnv, testMode: bool, agcControl: bool,
                iw: InitWait, g: Progress)
    requires cfg.agcSteps > 0
    requires iw.InitWait? && iw.kr == InitCounter && iw.used <= |files| && (testMode ==> iw.used == 1)
    requires g == Progress(InitialStatus.(kr := iw.kr, p := iw.p, q := iw.q), iw.kr, iw.used, cfg.ti,
                           [], [iw.used], [], [], [], Finished)
    ensures Inv(cfg, files, env, testMode, agcControl, iw.used, g)
  {
  }

  /** `run()`: wait for counter 11, then loop over the steps until `rows`
      steps ran or the loop was left, and save the counted rows. */
  method Run(cfg: Config, files: seq<FileState>, env: nat -> StepEnv, testMode: bool, agcControl: bool)
    returns (r: RunOutput)
    requires cfg.agcSteps > 0
    ensures r.init == InitWaitSpec(files, InitialStatus.kr, InitialStatus.p, InitialStatus.q, testMode)
    ensures r.init.InitStarved? ==>
              r.ending == Starved && r.waits == [] && r.sent == [] && r.loads == [] && r.paux == [] && r.table == []
    ensures r.init.InitWait? ==>
              r.status.k == |r.waits| <= cfg.steps && |r.sent| == |r.waits|
              && WaitsFollow(files, r.waits, r.readsBefore, cfg.itermaxIo, testMode)
              && r.readsBefore[0] == r.init.used
              && SentAll(env, r.sent) && LoadsAll(cfg, r.waits, r.loads) && PauxAll(cfg, env, agcControl, r.paux)
              && |r.loads| == (if Aborted(r.ending) then |r.waits| - 1 else |r.waits|)
              && |r.paux| == |r.loads| / cfg.agcSteps
              && r.status.iterTotal == (if r.ending == SimFailed then |r.loads| - 1 else |r.loads|)
              && SimsAll(cfg, env, r.status.iterTotal, r.status.iterFail)
              && TestCounters(testMode, r.waits, r.status.iterTotal)
    ensures r.ending == Finished ==> r.init.InitWait? && |r.waits| == cfg.steps
    ensures r.ending == WriteRaised ==> |r.sent| > 0 && r.sent[|r.sent| - 1].Raised?
    ensures r.ending == NoneInjected ==>
              |r.waits| > 0 && (r.waits[|r.waits| - 1].p.None? || r.waits[|r.waits| - 1].q.None?)
    ensures r.ending == SimFailed ==> |r.waits| > 0 && env(|r.waits| - 1).exitCode != 0
    ensures r.ending == Starved && r.init.InitWait? ==>
              |r.waits| < |r.readsBefore| && r.readsBefore[|r.waits|] <= |files|
              && (|r.waits| == 0 || r.waits[|r.waits| - 1].StepWait?)
              && StepWaitFrom(files[r.readsBefore[|r.waits|]..], Base(r.waits, |r.waits|), cfg.itermaxIo, testMode)
                 == StepStarved
    ensures Aborted(r.ending) ==> r.table == []
    ensures !Aborted(r.ending) ==> SavedTable(cfg, env, r.waits, r.table, r.status.iterTotal)
    ensures SmoothTest(cfg, files, env, testMode) ==> r.ending == Finished && |r.table| == cfg.steps
  {
    var iw := AwaitInit(files, InitialStatus.kr, InitialStatus.p, InitialStatus.q, testMode);
    if iw.InitStarved? {
      return RunOutput(Starved, InitialStatus, iw, [], [], [], [], [], []);
    }
    InitFacts(files, testMode, iw);
    r := Proceed(cfg, files, env, testMode, agcControl, iw);
  }

  /** Everything `run` does once the init loop has read a pair: the main
      loop, then the outcome it reports. */
  method Proceed(cfg: Config, files: seq<FileState>, env: nat -> StepEnv, testMode: bool, agcControl: bool,
                 iw: InitWait)
    returns (r: RunOutput)
    requires cfg.agcSteps > 0
    requires iw.InitWait? && iw.kr == InitCounter && iw.used <= |files| && (testMode ==> iw.used == 1)
    ensures r.init == iw
    ensures r.status.k == |r.waits| <= cfg.steps && |r.sent| == |r.waits|
            && WaitsFollow(files, r.waits, r.readsBefore, cfg.itermaxIo, testMode)
            && r.readsBefore[0] == iw.used
            && SentAll(env, r.sent) && LoadsAll(cfg, r.waits, r.loads) && PauxAll(cfg, env, agcControl, r.paux)
            && |r.loads| == (if Aborted(r.ending) then |r.waits| - 1 else |r.waits|)
            && |r.paux| == |r.loads| / cfg.agcSteps
            && r.status.iterTotal == (if r.ending == SimFailed then |r.loads| - 1 else |r.loads|)
            && SimsAll(cfg, env, r.status.iterTotal, r.status.iterFail)
            && TestCounters(testMode, r.waits, r.status.iterTotal)
    ensures r.ending == Finished ==> |r.waits| == cfg.steps
    ensures r.ending == WriteRaised ==> |r.sent| > 0 && r.sent[|r.sent| - 1].Raised?
    ensures r.ending == NoneInjected ==>
              |r.waits| > 0 && (r.waits[|r.waits| - 1].p.None? || r.waits[|r.waits| - 1].q.None?)
    ensures r.ending == SimFailed ==> |r.waits| > 0 && env(|r.waits| - 1).exitCode != 0
    ensures r.ending == Starved ==>
              |r.waits| < |r.readsBefore| && r.readsBefore[|r.waits|] <= |files|
              && (|r.waits| == 0 || r.waits[|r.waits| - 1].StepWait?)
              && StepWaitFrom(files[r.readsBefore[|r.waits|]..], Base(r.waits, |r.waits|), cfg.itermaxIo, testMode)
                 == StepStarved
    ensures Aborted(r.ending) ==> r.table == []
    ensures !Aborted(r.ending) ==> SavedTable(cfg, env, r.waits, r.table, r.status.iterTotal)
    ensures SmoothTest(cfg, files, env, testMode) ==> r.ending == Finished && |r.table| == cfg.steps
  {
    var g, rows := Steps(cfg, files, env, testMode, agcControl, iw);
    r := RunOutput(g.ending, g.st, iw, g.waits, g.readsBefore, g.sent, g.loads, g.paux, rows);
    OutputLogs(cfg, files, env, testMode, agcControl, iw.used, g, r);
    OutputEnd(cfg, files, env, testMode, agcControl, iw.used, g, r);
  }

  /** The main loop after the init loop, and the rows it saves. */
  method Steps(cfg: Config, files: seq<FileState>, env: nat -> StepEnv, testMode: bool, agcControl: bool,
               iw: InitWait)
    returns (g: Progress, rows: seq<seq<real>>)
    requires cfg.agcSteps > 0
    requires iw.InitWait? && iw.kr == InitCounter && iw.used <= |files| && (testMode ==> iw.used == 1)
    ensures Final(cfg, files, env, testMode, agcControl, iw.used, g)
    ensures Aborted(g.ending) ==> rows == []
    ensures !Aborted(g.ending) ==> SavedTable(cfg, env, g.waits, rows, g.st.iterTotal)
  {
    var ace := new AceObj(cfg.kp, cfg.ki, 0.0);
    var table := new real[cfg.steps, NCols]((_, _) => -1.0);
    g := Progress(InitialStatus.(kr := iw.kr, p := iw.p, q := iw.q), iw.kr, iw.used, cfg.ti,
                  [], [iw.used], [], [], [], Finished);
    InitInv(cfg, files, env, testMode, agcControl, iw, g);
    g := Loop(cfg, files, env, testMode, agcControl, iw.used, g, ace, table);
    rows := [];
    if !Aborted(g.ending) {
      rows := SavedRows(table, g.st.iterTotal);
      SavedRecorded(cfg, env, g.waits, table, g.st.iterTotal, rows);
    }
  }

  /** `while status['k'] < rows`: run steps until `rows` of them ran or one
      left the loop. */
  method Loop(cfg: Config, files: seq<FileState>, env: nat -> StepEnv, testMode: bool, agcControl: bool,
              used: nat, g0: Progress, ace: AceObj, table: array2<real>)
    returns (g: Progress)
    requires cfg.agcSteps > 0 && Inv(cfg, files, env, testMode, agcControl, used, g0)
    requires AceAfter(cfg, env, ace, g0.st.k) && RowsRecorded(cfg, env, g0.waits, table, g0.st.k)
    modifies ace, table
    ensures Final(cfg, files, env, testMode, agcControl, used, g)
    ensures RowsRecorded(cfg, env, g.waits, table, g.st.iterTotal)
  {
    g := g0;
    while g.st.k < cfg.steps
      invariant Inv(cfg, files, env, testMode, agcControl, used, g)
      invariant AceAfter(cfg, env, ace, g.st.k) && RowsRecorded(cfg, env, g.waits, table, g.st.k)
      decreases cfg.steps - g.st.k
    {
      var g' := RunStep(cfg, files, env, testMode, agcControl, used, g, ace, table);
      if g'.ending != Finished {
        return g';
      }
      g := g';
    }
    FinishedFinal(cfg, files, env, testMode, agcControl, used, g);
  }

  /** The logs of the run are those of the loop state it ended in. */
  lemma OutputLogs(cfg: Config, files: seq<FileState>, env: nat -> StepEnv, testMode: bool, agcControl: bool,
                   used: nat, g: Progress, r: RunOutput)
    requires cfg.agcSteps > 0 && FinalLogs(cfg, files, env, testMode, agcControl, used, g)
    requires r.ending == g.ending && r.status == g.st && r.waits == g.waits && r.readsBefore == g.readsBefore
    requires r.sent == g.sent && r.loads == g.loads && r.paux == g.paux
    ensures r.status.k == |r.waits| <= cfg.steps && |r.sent| == |r.waits|
            && WaitsFollow(files, r.waits, r.readsBefore, cfg.itermaxIo, testMode)
            && r.readsBefore[0] == used
            && SentAll(env, r.sent) && LoadsAll(cfg, r.waits, r.loads) && PauxAll(cfg, env, agcControl, r.paux)
            && |r.loads| == (if Aborted(r.ending) then |r.waits| - 1 else |r.waits|)
            && |r.paux| == |r.loads| / cfg.agcSteps
            && r.status.iterTotal == (if r.ending == SimFailed then |r.loads| - 1 else |r.loads|)
            && SimsAll(cfg, env, r.status.iterTotal, r.status.iterFail)
            && TestCounters(testMode, r.waits, r.status.iterTotal)
  {
  }

  /** How the run ended, read off the loop state it ended in. */
  lemma OutputEnd(cfg: Config, files: seq<FileState>, env: nat -> StepEnv, testMode: bool, agcControl: bool,
                  used: nat, g: Progress, r: RunOutput)
    requires cfg.agcSteps > 0 && Final(cfg, files, env, testMode, agcControl, used, g)
    requires r.ending == g.ending && r.status == g.st && r.waits == g.waits && r.readsBefore == g.readsBefore
    requires r.sent == g.sent
    ensures r.ending == Finished ==> |r.waits| == cfg.steps
    ensures r.ending == WriteRaised ==> |r.sent| > 0 && r.sent[|r.sent| - 1].Raised?
    ensures r.ending == NoneInjected ==>
              |r.waits| > 0 && (r.waits[|r.waits| - 1].p.None? || r.waits[|r.waits| - 1].q.None?)
    ensures r.ending == SimFailed ==> |r.waits| > 0 && env(|r.waits| - 1).exitCode != 0
    ensures r.ending == Starved ==>
              |r.waits| < |r.readsBefore| && r.readsBefore[|r.waits|] <= |files|
              && (|r.waits| == 0 || r.waits[|r.waits| - 1].StepWait?)
              && StepWaitFrom(files[r.readsBefore[|r.waits|]..], Base(r.waits, |r.waits|), cfg.itermaxIo, testMode)
                 == StepStarved
    ensures SmoothTest(cfg, files, env, testMode) ==> r.ending == Finished && r.status.iterTotal == cfg.steps
  {
  }

  /** The saved row of step `i + 1` carries its step number and the
      simulator's end time `ti + (i + 1) * t_step`. */
  lemma SavedTimes(cfg: Config, env: nat -> StepEnv, waits: seq<StepWait>, rows: seq<seq<real>>, n: nat, i: nat)
    requires SavedTable(cfg, env, waits, rows, n) && i < n
    ensures |rows[i]| == NCols + 1
    ensures rows[i][K] == (i + 1) as real && rows[i][TF] == cfg.ti + ((i + 1) as real) * cfg.tStep
    ensures rows[i][TALL] == env(i).tw + env(i).tr + env(i).tsim
  {
    EndTimeClosed(cfg.ti, cfg.tStep, i + 1);
  }

  /** In test mode the saved counter column runs 12, 13, ..., 199, 11, 12, ...:
      row `i` holds `11 + (i + 1) % 189`. */
  lemma TestModeCounters(cfg: Config, env: nat -> StepEnv, waits: seq<StepWait>, rows: seq<seq<real>>, n: nat)
    requires SavedTable(cfg, env, waits, rows, n) && TestCounters(true, waits, n)
    ensures forall i :: 0 <= i < n ==> rows[i][KR] == (InitCounter + (i + 1) % (LastCounter - CounterBase)) as real
  {
    forall i | 0 <= i < n
      ensures rows[i][KR] == (InitCounter + (i + 1) % (LastCounter - CounterBase)) as real
    {
      assert rows[i] == Saved(RowOf(cfg, i, waits[i], env(i)));
    }
  }
}
