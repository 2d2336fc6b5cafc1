/** The LTB side as a script, ltb/core_ltb.py: wait for counter 11, then per
    step wait (without bound) for the next counter, send voltage and
    frequency, inject the read power, simulate, count and record a row of
    `cs_num`, and wrap the counter after 199. The dictionaries `cs_stat` and
    `cs_config` take the values of code/core_pre.py:44-48; `io_config` is the
    one of ltb/core_io.py, whose defaults the read loops overwrite. */
module LtbScript {
  import opened Wire
  import opened CoreIo
  import CoSim
  import MainLoop

  /** `cs_config`, with the loop bound `rows` as a step count. */
  datatype LtbConfig = LtbConfig(rows: nat, tStep: real, loadSwitch: bool)

  /** `ti = 1`, `t_step = 0.05`, `t_total = 30`: `ceil((30 - 1) / 0.05)` rows. */
  const ScriptConfig: LtbConfig := LtbConfig(580, 0.05, true)

  /** The dictionary `cs_stat`. */
  datatype CsStat = CsStat(iterTotal: nat, iterFail: nat, ks: int, kb: int, kr: int, k: nat, aLtb: real,
                           p: real, q: real, tw: real, tr: real)

  const InitialCsStat: CsStat := CsStat(0, 0, 1, -11, -1, 0, 0.0, 0.0, 0.0, 0.0, 0.0)

  /** Number of columns of `cs_col = ['ks', 'kb', 'kr', 'a_ltb', 'p', 'q', 'tw', 'tr']`. */
  const NCol: nat := 8

  /** What the collaborators supply for one step: the frequency and voltage
      sent, the state of the write file, whether the step counts as failed
      (`tc3 - tf_htb > t_step`), and the read and write durations. */
  datatype LtbEnv = LtbEnv(fSend: real, vBus: real, sink: Sink, late: bool, tr: real, tw: real)

  // ---- the read loops (ltb/core_ltb.py:110-127, 138-141) ----

  /** The `(p_df, q_df)` that `io_config` holds after reading `fs` in order:
      a successful read stores its decoded values, a failed one returns and
      stores the values already there. */
  function LastRead(fs: seq<FileState>, io: IoConfig): (real, real)
    requires io.htbS != 0.0
  {
    if fs == [] then (io.pDf, io.qDf)
    else
      var prev := LastRead(fs[..|fs| - 1], io);
      var r := DataRead(fs[|fs| - 1], io, io.(pDf := prev.0, qDf := prev.1));
      (r.p, r.q)
  }

  /** Outcome of a read loop: the number of reads and the `p`, `q` left in
      `cs_stat`; `WaitStarved` when the reads ran out first. */
  datatype CounterWait = CounterWait(used: nat, p: real, q: real) | WaitStarved

  /** `while cs_stat['kr'] != target: read`, declaratively: the reads up to
      and including the first one whose counter is `target`. */
  function WaitSpec(fs: seq<FileState>, target: int, kr: int, p: real, q: real, io: IoConfig): CounterWait
    requires io.htbS != 0.0
  {
    if kr == target then CounterWait(0, p, q)
    else
      var n := FirstIndex(Counters(fs, io.kDf), target) + 1;
      if n > |fs| then WaitStarved
      else CounterWait(n, LastRead(fs[..n], io).0, LastRead(fs[..n], io).1)
  }

  /** The read loop: `data_read(file=filer, config=io_config)` until the
      counter is `target`, copying each read's `p`, `q` into `io_config`. */
  method AwaitCounter(fs: seq<FileState>, target: int, kr: int, p: real, q: real, io: IoConfig)
    returns (w: CounterWait, io': IoConfig)
    requires io.htbS != 0.0
    ensures w == WaitSpec(fs, target, kr, p, q, io) && io'.htbS == io.htbS
    ensures w.CounterWait? ==>
              io' == io.(pDf := LastRead(fs[..w.used], io).0, qDf := LastRead(fs[..w.used], io).1)
  {
    var kr', p', q' := kr, p, q;
    io' := io;
    var used := 0;
    while kr' != target
      invariant used <= |fs|
      invariant used == 0 ==> kr' == kr && p' == p && q' == q
      invariant used > 0 ==> kr != target && kr' == Counter(fs[used - 1], io.kDf)
      invariant io' == io.(pDf := LastRead(fs[..used], io).0, qDf := LastRead(fs[..used], io).1)
      invariant used > 0 ==> p' == io'.pDf && q' == io'.qDf
      invariant forall j :: 0 <= j < used - 1 ==> Counter(fs[j], io.kDf) != target
      invariant kr' != target ==> forall j :: 0 <= j < used ==> Counter(fs[j], io.kDf) != target
      decreases |fs| - used
    {
      if used == |fs| {
        FirstIndexAtLeast(Counters(fs, io.kDf), target, used);
        return WaitStarved, io';
      }
      var r := DataRead(fs[used], io', io');
      assert fs[..used + 1][..used] == fs[..used];
      kr', p', q' := r.k, r.p, r.q;
      io' := io'.(pDf := r.p, qDf := r.q);
      used := used + 1;
    }
    if used > 0 {
      FirstIndexAt(Counters(fs, io.kDf), target, used - 1);
    }
    w := CounterWait(used, p', q');
  }

  /** `LastRead` independently: the decoded value of the last successful
      read, or the default when no read succeeded. */
  lemma {:induction false} LastReadDefault(fs: seq<FileState>, io: IoConfig)
    requires io.htbS != 0.0
    requires forall j :: 0 <= j < |fs| ==> !Readable(fs[j])
    ensures LastRead(fs, io) == (io.pDf, io.qDf)
  {
    if fs != [] {
      var n := |fs| - 1;
      assert forall j :: 0 <= j < n ==> fs[..n][j] == fs[j];
      LastReadDefault(fs[..n], io);
    }
  }

  lemma {:induction false} LastReadIsLastSuccess(fs: seq<FileState>, io: IoConfig, i: nat)
    requires io.htbS != 0.0
    requires i < |fs| && Readable(fs[i])
    requires forall j :: i < j < |fs| ==> !Readable(fs[j])
    ensures LastRead(fs, io) == (Decode(ParseTriple(fs[i].text).value.p, io), Decode(ParseTriple(fs[i].text).value.q, io))
  {
    var n := |fs| - 1;
    if i < n {
      assert !Readable(fs[n]);
      assert forall j :: i < j < n ==> fs[..n][j] == fs[j];
      LastReadIsLastSuccess(fs[..n], io, i);
    }
  }

  /** The unbounded wait ends only on a read whose counter is the target: that
      read succeeded (when the target is not the failure counter `-4`), every
      earlier read carried another counter, and `p`, `q` are that read's
      decoded values. It runs out of reads exactly when no read carries the
      target. */
  lemma WaitStopsOnTarget(fs: seq<FileState>, target: int, kr: int, p: real, q: real, io: IoConfig)
    requires io.htbS != 0.0 && kr != target && target != io.kDf
    ensures var w := WaitSpec(fs, target, kr, p, q, io);
            w.CounterWait? ==>
              1 <= w.used <= |fs| && Readable(fs[w.used - 1]) && Counter(fs[w.used - 1], io.kDf) == target
              && (forall j :: 0 <= j < w.used - 1 ==> Counter(fs[j], io.kDf) != target)
              && w.p == Decode(ParseTriple(fs[w.used - 1].text).value.p, io)
              && w.q == Decode(ParseTriple(fs[w.used - 1].text).value.q, io)
    ensures WaitSpec(fs, target, kr, p, q, io).WaitStarved? <==>
              forall j :: 0 <= j < |fs| ==> Counter(fs[j], io.kDf) != target
  {
    var cs := Counters(fs, io.kDf);
    FirstIndexFinds(cs, target);
    var n := FirstIndex(cs, target) + 1;
    if n <= |fs| {
      assert fs[..n][n - 1] == fs[n - 1];
      LastReadIsLastSuccess(fs[..n], io, n - 1);
    }
  }

  /** Once the target is not the failure counter, the outcome of a wait does
      not depend on the defaults stored in `io_config`. */
  lemma WaitIgnoresDefaults(fs: seq<FileState>, target: int, kr: int, p: real, q: real, io: IoConfig, io2: IoConfig)
    requires io.htbS != 0.0 && kr != target && target != io.kDf
    requires io2 == io.(pDf := io2.pDf, qDf := io2.qDf)
    ensures WaitSpec(fs, target, kr, p, q, io) == WaitSpec(fs, target, kr, p, q, io2)
  {
    var cs := Counters(fs, io.kDf);
    assert cs == Counters(fs, io2.kDf);
    var n := FirstIndex(cs, target) + 1;
    if n <= |fs| {
      FirstIndexFinds(cs, target);
      assert fs[..n][n - 1] == fs[n - 1];
      LastReadIsLastSuccess(fs[..n], io, n - 1);
      LastReadIsLastSuccess(fs[..n], io2, n - 1);
      var t := ParseTriple(fs[n - 1].text).value;
      assert Decode(t.p, io) == Decode(t.p, io2) && Decode(t.q, io) == Decode(t.q, io2);
    }
  }

  // ---- counters ----

  /** The counter step `s` (from 0) waits for: 12, 13, ..., 199, 11, 12, ... */
  function Target(s: nat): (t: int)
    ensures CoSim.InitCounter <= t <= CoSim.LastCounter
  {
    CoSim.InitCounter + (s + 1) % (CoSim.LastCounter - CoSim.CounterBase)
  }

  /** `cs_stat['ks']` when step `s` is recorded: one more per wrap before it. */
  function Ks(s: nat): int {
    1 + (s + 1) / (CoSim.LastCounter - CoSim.CounterBase)
  }

  /** The closed forms follow the script's rule: the next counter is one more
      than the last, except that after 199 the base drops to 10 and `ks`
      grows by one. */
  lemma CountersAdvance(s: nat)
    ensures Target(s + 1) == MainLoop.Wrap(Target(s)) + 1
    ensures Ks(s + 1) == Ks(s) + (if Target(s) == CoSim.LastCounter then 1 else 0)
  {
    MainLoop.CounterStep(s);
    MainLoop.DivStep(s + 1, 189);
    var a := (s + 1) % 189;
    MainLoop.DivUnique(s + 1, 189, (s + 1) / 189, a);
    if a == 188 {
      MainLoop.DivUnique(s + 2, 189, (s + 1) / 189 + 1, 0);
    } else {
      MainLoop.DivUnique(s + 2, 189, (s + 1) / 189, a + 1);
    }
  }

  /** The row `cs_num[s, :]` of step `s`. */
  function Row(s: nat, w: CounterWait, e: LtbEnv): (row: seq<real>)
    requires w.CounterWait?
    ensures |row| == NCol
  {
    [Ks(s) as real, -11.0, Target(s) as real, 0.0, w.p, w.q, e.tw, e.tr]
  }

  /** A row never written: `-1 * np.ones`. */
  function Unwritten(): (row: seq<real>)
    ensures |row| == NCol
  {
    seq(NCol, _ => -1.0)
  }

  // ---- the main loop (ltb/core_ltb.py:129-192) ----

  /** How the script ends: all `rows` steps ran, the reads ran out (the
      model's horizon; the script would wait on), or `open` of the write file
      raised, which ends the script before it saves anything. */
  datatype ScriptEnding = Completed | ReadsRanOut | WriteFailed

  /** The script's state: `cs_stat`, `kr0`, `io_config`, the reads consumed,
      the read loops with the reads consumed before each (one more entry),
      the writes, the injections `(p_inj, q_inj)` and how it ended. */
  datatype Script = Script(st: CsStat, kr0: int, io: IoConfig, pos: nat, waits: seq<CounterWait>, rb: seq<nat>,
                           sent: seq<WriteOutcome>, loads: seq<(real, real)>, ending: ScriptEnding)

  /** The read loop of step `s` as a function of the reads it starts at. */
  function StepSpec(fs: seq<FileState>, s: nat): CounterWait {
    WaitSpec(fs, Target(s), Target(s) - 1, 0.0, 0.0, InitialIoConfig)
  }

  /** The step read loops chain: each starts where the previous one stopped
      and waits for its step's counter. */
  ghost predicate Chain(files: seq<FileState>, waits: seq<CounterWait>, rb: seq<nat>) {
    |rb| == |waits| + 1
    && (forall i :: 0 <= i <= |waits| ==> rb[i] <= |files|)
    && (forall i :: 0 <= i < |waits| ==> waits[i].CounterWait? && rb[i + 1] == rb[i] + waits[i].used)
    && (forall i {:trigger StepSpec(files[rb[i]..], i)} :: 0 <= i < |waits| ==> waits[i] == StepSpec(files[rb[i]..], i))
  }

  lemma ChainExtends(files: seq<FileState>, waits: seq<CounterWait>, rb: seq<nat>, w: CounterWait)
    requires Chain(files, waits, rb)
    requires w.CounterWait? && w == StepSpec(files[rb[|waits|]..], |waits|)
    requires rb[|waits|] + w.used <= |files|
    ensures Chain(files, waits + [w], rb + [rb[|waits|] + w.used])
  {
    var waits', rb' := waits + [w], rb + [rb[|waits|] + w.used];
    assert forall i :: 0 <= i < |waits| ==> waits'[i] == waits[i];
    assert forall i :: 0 <= i <= |waits| ==> rb'[i] == rb[i];
  }

  /** Number of steps among the first `n` that count as failed. */
  function LateCount(env: nat -> LtbEnv, n: nat): (c: nat)
    ensures c <= n
  {
    if n == 0 then 0 else LateCount(env, n - 1) + (if env(n - 1).late then 1 else 0)
  }

  /** Each step sent `[v_bus, f_send]`. */
  ghost predicate SentAll(env: nat -> LtbEnv, sent: seq<WriteOutcome>) {
    forall i :: 0 <= i < |sent| ==>
      sent[i] == DataWrite([env(i).vBus, env(i).fSend], env(i).sink, InitialIoConfig, InitialIoConfig)
  }

  /** Each injection is the step's read power, switched by `load_switch`. */
  ghost predicate LoadsAll(cfg: LtbConfig, waits: seq<CounterWait>, loads: seq<(real, real)>) {
    |loads| <= |waits|
    && forall i :: 0 <= i < |loads| ==>
         waits[i].CounterWait?
         && loads[i] == (MainLoop.Scale(cfg.loadSwitch, waits[i].p), MainLoop.Scale(cfg.loadSwitch, waits[i].q))
  }

  /** The counters at the head of the loop after `k` steps, and `io_config`
      holding the last read values as its defaults. */
  ghost predicate InvHead(cfg: LtbConfig, g: Script) {
    var k := g.st.k;
    g.ending == Completed && k <= cfg.rows && g.st.iterTotal == k && |g.waits| == k
    && g.kr0 == g.st.kr == Target(k) - 1 && g.st.ks == Ks(k) && g.st.kb == -11 && g.st.aLtb == 0.0
    && g.io == InitialIoConfig.(pDf := g.st.p, qDf := g.st.q)
  }

  /** The logs at the head of the loop. */
  ghost predicate InvLogs(cfg: LtbConfig, files: seq<FileState>, env: nat -> LtbEnv, used: nat, g: Script) {
    |g.sent| == |g.waits| && |g.loads| == |g.waits|
    && Chain(files, g.waits, g.rb) && g.rb[0] == used && g.pos == g.rb[|g.waits|]
    && SentAll(env, g.sent) && (forall i :: 0 <= i < |g.sent| ==> g.sent[i].Wrote?)
    && LoadsAll(cfg, g.waits, g.loads)
    && g.st.iterFail == LateCount(env, g.st.iterTotal)
  }

  ghost predicate Inv(cfg: LtbConfig, files: seq<FileState>, env: nat -> LtbEnv, used: nat, g: Script) {
    InvHead(cfg, g) && InvLogs(cfg, files, env, used, g)
  }

  /** What holds when the loop is left. */
  ghost predicate Final(cfg: LtbConfig, files: seq<FileState>, env: nat -> LtbEnv, used: nat, g: Script) {
    var k := g.st.k;
    k <= cfg.rows && |g.waits| == k && |g.sent| == k
    && |g.loads| == (if g.ending == WriteFailed then k - 1 else k) && g.st.iterTotal == |g.loads|
    && Chain(files, g.waits, g.rb) && g.rb[0] == used
    && SentAll(env, g.sent) && (forall i :: 0 <= i < |g.loads| ==> g.sent[i].Wrote?)
    && LoadsAll(cfg, g.waits, g.loads)
    && g.st.iterFail == LateCount(env, g.st.iterTotal)
    && (g.ending == Completed ==> k == cfg.rows)
    && (g.ending == WriteFailed ==> k > 0 && g.sent[k - 1].Raised?)
    && (g.ending == ReadsRanOut ==> StepSpec(files[g.rb[k]..], k) == WaitStarved)
  }

  /** The first `n` rows of `cs_num` hold the recorded steps, the others are
      still unwritten. */
  ghost predicate Recorded(cfg: LtbConfig, env: nat -> LtbEnv, waits: seq<CounterWait>, table: array2<real>, n: nat)
    reads table
  {
    table.Length0 == cfg.rows && table.Length1 == NCol && n <= cfg.rows && n <= |waits|
    && (forall i :: 0 <= i < n ==> waits[i].CounterWait?)
    && (forall i, c :: 0 <= i < n && 0 <= c < NCol ==> table[i, c] == Row(i, waits[i], env(i))[c])
    && (forall i, c :: n <= i < cfg.rows && 0 <= c < NCol ==> table[i, c] == -1.0)
  }

  // ---- the phases of one step ----

  /** The read loop's outcome: the counter read, `p`, `q`, `kr0` and the
      defaults in `io_config` follow it, and `k` advances. */
  function AfterWait(g: Script, w: CounterWait, target: int): Script
    requires w.CounterWait?
  {
    var pos := g.pos + w.used;
    g.(st := g.st.(kr := target, p := w.p, q := w.q, k := g.st.k + 1), kr0 := target,
       io := g.io.(pDf := w.p, qDf := w.q), pos := pos, waits := g.waits + [w], rb := g.rb + [pos])
  }

  /** The injection, the failure check, the durations, the count, and after
      counter 199 the new base 10 and the next `ks`. */
  function AfterSim(g: Script, cfg: LtbConfig, e: LtbEnv): Script {
    var st := g.st.(iterFail := if e.late then g.st.iterFail + 1 else g.st.iterFail, tr := e.tr, tw := e.tw,
                    iterTotal := g.st.iterTotal + 1);
    var g1 := g.(st := st, loads := g.loads + [(MainLoop.Scale(cfg.loadSwitch, g.st.p),
                                                MainLoop.Scale(cfg.loadSwitch, g.st.q))]);
    if st.kr == CoSim.LastCounter then g1.(st := st.(kr := CoSim.CounterBase, ks := st.ks + 1),
                                           kr0 := CoSim.CounterBase)
    else g1
  }

  /** The step's read loop follows `StepSpec` and extends the chain. */
  lemma ReadStep(files: seq<FileState>, g: Script, w: CounterWait)
    requires g.st.k == |g.waits| && g.kr0 == g.st.kr == Target(g.st.k) - 1
    requires g.io == InitialIoConfig.(pDf := g.st.p, qDf := g.st.q)
    requires Chain(files, g.waits, g.rb) && g.pos == g.rb[|g.waits|]
    requires w == WaitSpec(files[g.pos..], g.kr0 + 1, g.st.kr, g.st.p, g.st.q, g.io)
    ensures w == StepSpec(files[g.pos..], g.st.k)
    ensures w.CounterWait? ==>
              1 <= w.used && g.pos + w.used <= |files|
              && Chain(files, g.waits + [w], g.rb + [g.pos + w.used])
  {
    ReadFollowsStep(files[g.pos..], g.st.k, g.st.p, g.st.q, g.io);
    if w.CounterWait? {
      ChainStep(files, g.waits, g.rb, w);
    }
  }

  /** A step's completed read loop consumes at least one read and extends
      the chain. */
  lemma ChainStep(files: seq<FileState>, waits: seq<CounterWait>, rb: seq<nat>, w: CounterWait)
    requires Chain(files, waits, rb)
    requires w.CounterWait? && w == StepSpec(files[rb[|waits|]..], |waits|)
    ensures 1 <= w.used && rb[|waits|] + w.used <= |files|
    ensures Chain(files, waits + [w], rb + [rb[|waits|] + w.used])
  {
    var k := |waits|;
    WaitStopsOnTarget(files[rb[k]..], Target(k), Target(k) - 1, 0.0, 0.0, InitialIoConfig);
    ChainExtends(files, waits, rb, w);
  }

  /** At the head of step `s` the wait starts from counter `Target(s) - 1`
      with `io_config` holding the last values; it behaves as `StepSpec`. */
  lemma ReadFollowsStep(fs: seq<FileState>, s: nat, p: real, q: real, io: IoConfig)
    requires io == InitialIoConfig.(pDf := p, qDf := q)
    ensures WaitSpec(fs, Target(s), Target(s) - 1, p, q, io) == StepSpec(fs, s)
  {
    WaitIgnoresDefaults(fs, Target(s), Target(s) - 1, p, q, InitialIoConfig, io);
  }

  /** The state after a step whose write succeeded. */
  function Advanced(cfg: LtbConfig, g: Script, w: CounterWait, out: WriteOutcome, e: LtbEnv): Script
    requires w.CounterWait?
  {
    AfterSim(AfterWait(g, w, g.kr0 + 1).(sent := g.sent + [out]), cfg, e)
  }

  /** The counters after a completed step. */
  lemma StepHead(cfg: LtbConfig, g: Script, w: CounterWait, out: WriteOutcome, e: LtbEnv)
    requires InvHead(cfg, g) && g.st.k < cfg.rows && w.CounterWait?
    ensures InvHead(cfg, Advanced(cfg, g, w, out, e))
  {
    CountersAdvance(g.st.k);
  }

  /** The logs after a completed step. */
  lemma StepLogs(cfg: LtbConfig, files: seq<FileState>, env: nat -> LtbEnv, used: nat, g: Script, w: CounterWait,
                 out: WriteOutcome)
    requires InvLogs(cfg, files, env, used, g) && g.st.iterTotal == |g.waits| && w.CounterWait?
    requires Chain(files, g.waits + [w], g.rb + [g.pos + w.used])
    requires out == DataWrite([env(|g.waits|).vBus, env(|g.waits|).fSend], env(|g.waits|).sink,
                              InitialIoConfig, InitialIoConfig) && out.Wrote?
    ensures InvLogs(cfg, files, env, used, Advanced(cfg, g, w, out, env(|g.waits|)))
  {
    var g' := Advanced(cfg, g, w, out, env(|g.waits|));
    assert g'.waits == g.waits + [w] && g'.rb == g.rb + [g.pos + w.used] && g'.pos == g.pos + w.used;
    assert g'.sent == g.sent + [out];
    assert g'.loads == g.loads + [(MainLoop.Scale(cfg.loadSwitch, w.p), MainLoop.Scale(cfg.loadSwitch, w.q))];
    assert g'.st.iterTotal == g.st.iterTotal + 1;
    assert g'.st.iterFail == LateCount(env, g'.st.iterTotal);
    StepSentLoads(cfg, env, g.waits, g.sent, g.loads, w, out);
  }

  /** The write and the injection of a completed step extend their logs. */
  lemma StepSentLoads(cfg: LtbConfig, env: nat -> LtbEnv, waits: seq<CounterWait>, sent: seq<WriteOutcome>,
                      loads: seq<(real, real)>, w: CounterWait, out: WriteOutcome)
    requires |sent| == |waits| && |loads| == |waits| && w.CounterWait?
    requires SentAll(env, sent) && (forall i :: 0 <= i < |sent| ==> sent[i].Wrote?) && LoadsAll(cfg, waits, loads)
    requires out == DataWrite([env(|waits|).vBus, env(|waits|).fSend], env(|waits|).sink,
                              InitialIoConfig, InitialIoConfig) && out.Wrote?
    ensures SentAll(env, sent + [out]) && (forall i :: 0 <= i < |sent| + 1 ==> (sent + [out])[i].Wrote?)
    ensures LoadsAll(cfg, waits + [w],
                     loads + [(MainLoop.Scale(cfg.loadSwitch, w.p), MainLoop.Scale(cfg.loadSwitch, w.q))])
  {
    assert forall i :: 0 <= i < |sent| ==> (sent + [out])[i] == sent[i];
    assert forall i :: 0 <= i < |loads| ==> (waits + [w])[i] == waits[i];
  }

  /** `cs_num[k-1, cs_col.index(col)] = cs_stat[col]` for every column. */
  method RecordRow(cfg: LtbConfig, env: nat -> LtbEnv, waits: seq<CounterWait>, w: CounterWait,
                   table: array2<real>, row: seq<real>)
    requires Recorded(cfg, env, waits, table, |waits|) && |waits| < cfg.rows && w.CounterWait?
    requires row == Row(|waits|, w, env(|waits|))
    modifies table
    ensures Recorded(cfg, env, waits + [w], table, |waits| + 1)
  {
    MainLoop.WriteRow(table, |waits|, row);
    assert forall i :: 0 <= i < |waits| ==> (waits + [w])[i] == waits[i];
  }

  lemma KeptRecorded(cfg: LtbConfig, env: nat -> LtbEnv, waits: seq<CounterWait>, w: CounterWait,
                     table: array2<real>, n: nat)
    requires Recorded(cfg, env, waits, table, n)
    ensures Recorded(cfg, env, waits + [w], table, n)
  {
    assert forall i :: 0 <= i < |waits| ==> (waits + [w])[i] == waits[i];
  }

  /** The reads ran out in a step's read loop. */
  lemma RanOutFinal(cfg: LtbConfig, files: seq<FileState>, env: nat -> LtbEnv, used: nat, g: Script)
    requires Inv(cfg, files, env, used, g) && g.st.k < cfg.rows
    requires StepSpec(files[g.pos..], g.st.k) == WaitStarved
    ensures Final(cfg, files, env, used, g.(ending := ReadsRanOut))
  {
  }

  /** `open` of the write file raised. */
  lemma WriteFailedFinal(cfg: LtbConfig, files: seq<FileState>, env: nat -> LtbEnv, used: nat, g: Script,
                         w: CounterWait, out: WriteOutcome)
    requires g.st.k < cfg.rows && g.st.iterTotal == g.st.k == |g.waits| && |g.sent| == |g.loads| == |g.waits|
    requires |g.rb| > 0 && g.rb[0] == used && w.CounterWait?
    requires SentAll(env, g.sent) && (forall i :: 0 <= i < |g.sent| ==> g.sent[i].Wrote?)
    requires LoadsAll(cfg, g.waits, g.loads) && g.st.iterFail == LateCount(env, g.st.iterTotal)
    requires Chain(files, g.waits + [w], g.rb + [g.pos + w.used])
    requires out == DataWrite([env(g.st.k).vBus, env(g.st.k).fSend], env(g.st.k).sink,
                              InitialIoConfig, InitialIoConfig) && out.Raised?
    ensures Final(cfg, files, env, used, AfterWait(g, w, g.kr0 + 1).(sent := g.sent + [out], ending := WriteFailed))
  {
    var g' := AfterWait(g, w, g.kr0 + 1).(sent := g.sent + [out], ending := WriteFailed);
    assert g'.waits == g.waits + [w] && g'.rb == g.rb + [g.pos + w.used] && g'.sent == g.sent + [out];
    assert g'.loads == g.loads && g'.st.k == g.st.k + 1 && g'.st.iterTotal == g.st.iterTotal;
    assert g'.st.iterFail == g.st.iterFail;
    assert Chain(files, g'.waits, g'.rb);
    assert forall i :: 0 <= i < |g.sent| ==> g'.sent[i] == g.sent[i];
    assert SentAll(env, g'.sent);
    assert forall i :: 0 <= i < |g.loads| ==> g'.waits[i] == g.waits[i];
    assert LoadsAll(cfg, g'.waits, g'.loads);
  }

  /** One pass of the loop body. A result still `Completed` means the loop
      goes on. */
  method ScriptStep(cfg: LtbConfig, files: seq<FileState>, env: nat -> LtbEnv, used: nat, g: Script,
                    table: array2<real>)
    returns (g': Script)
    requires Inv(cfg, files, env, used, g) && g.st.k < cfg.rows && Recorded(cfg, env, g.waits, table, g.st.k)
    modifies table
    ensures g'.ending == Completed ==>
              Inv(cfg, files, env, used, g') && g'.st.k == g.st.k + 1 && Recorded(cfg, env, g'.waits, table, g'.st.k)
    ensures g'.ending != Completed ==>
              Final(cfg, files, env, used, g') && Recorded(cfg, env, g'.waits, table, g'.st.iterTotal)
  {
    var w, io := StepRead(files, g);
    if w.WaitStarved? {
      RanOutFinal(cfg, files, env, used, g);
      return g.(ending := ReadsRanOut);
    }
    g' := SendStep(cfg, files, env, used, g, w, io, table);
  }

  /** The step's read loop, run from where the previous one stopped. */
  method StepRead(files: seq<FileState>, g: Script) returns (w: CounterWait, io: IoConfig)
    requires g.st.k == |g.waits| && g.kr0 == g.st.kr == Target(g.st.k) - 1
    requires g.io == InitialIoConfig.(pDf := g.st.p, qDf := g.st.q)
    requires Chain(files, g.waits, g.rb) && g.pos == g.rb[|g.waits|]
    ensures w == StepSpec(files[g.pos..], g.st.k) && io.htbS == InitialIoConfig.htbS
    ensures w.CounterWait? ==>
              1 <= w.used && g.pos + w.used <= |files|
              && Chain(files, g.waits + [w], g.rb + [g.pos + w.used])
  {
    w, io := AwaitCounter(files[g.pos..], g.kr0 + 1, g.st.kr, g.st.p, g.st.q, g.io);
    ReadStep(files, g, w);
  }

  /** The step after its read loop saw the counter: the write, then the
      rest of the step unless `open` raised. */
  method SendStep(cfg: LtbConfig, files: seq<FileState>, env: nat -> LtbEnv, used: nat, g: Script, w: CounterWait,
                  io: IoConfig, table: array2<real>)
    returns (g': Script)
    requires Inv(cfg, files, env, used, g) && g.st.k < cfg.rows && Recorded(cfg, env, g.waits, table, g.st.k)
    requires w.CounterWait? && Chain(files, g.waits + [w], g.rb + [g.pos + w.used])
    requires io.htbS == InitialIoConfig.htbS
    modifies table
    ensures g'.ending == Completed ==>
              Inv(cfg, files, env, used, g') && g'.st.k == g.st.k + 1 && Recorded(cfg, env, g'.waits, table, g'.st.k)
    ensures g'.ending != Completed ==>
              Final(cfg, files, env, used, g') && Recorded(cfg, env, g'.waits, table, g'.st.iterTotal)
  {
    var k := g.st.k;
    var e := env(k);
    var out := DataWrite([e.vBus, e.fSend], e.sink, io, io);
    assert out == DataWrite([e.vBus, e.fSend], e.sink, InitialIoConfig, InitialIoConfig);
    if out.Raised? {
      WriteFailedFinal(cfg, files, env, used, g, w, out);
      KeptRecorded(cfg, env, g.waits, w, table, k);
      return AfterWait(g, w, g.kr0 + 1).(sent := g.sent + [out], ending := WriteFailed);
    }
    g' := CompleteStep(cfg, files, env, used, g, w, out, table);
  }

  /** The rest of a step once the write succeeded: the row is recorded and
      the counters advance. */
  method CompleteStep(cfg: LtbConfig, files: seq<FileState>, env: nat -> LtbEnv, used: nat, g: Script,
                      w: CounterWait, out: WriteOutcome, table: array2<real>)
    returns (g': Script)
    requires Inv(cfg, files, env, used, g) && g.st.k < cfg.rows && Recorded(cfg, env, g.waits, table, g.st.k)
    requires w.CounterWait? && Chain(files, g.waits + [w], g.rb + [g.pos + w.used])
    requires out == DataWrite([env(g.st.k).vBus, env(g.st.k).fSend], env(g.st.k).sink,
                              InitialIoConfig, InitialIoConfig) && out.Wrote?
    modifies table
    ensures g' == Advanced(cfg, g, w, out, env(g.st.k))
    ensures Inv(cfg, files, env, used, g') && g'.st.k == g.st.k + 1 && g'.ending == Completed
    ensures Recorded(cfg, env, g'.waits, table, g'.st.k)
  {
    var k := g.st.k;
    RecordRow(cfg, env, g.waits, w, table, Row(k, w, env(k)));
    g' := Advanced(cfg, g, w, out, env(k));
    StepInv(cfg, files, env, used, g, w, out);
  }

  /** A completed step re-establishes the loop invariant. */
  lemma StepInv(cfg: LtbConfig, files: seq<FileState>, env: nat -> LtbEnv, used: nat, g: Script, w: CounterWait,
                out: WriteOutcome)
    requires Inv(cfg, files, env, used, g) && g.st.k < cfg.rows
    requires w.CounterWait? && Chain(files, g.waits + [w], g.rb + [g.pos + w.used])
    requires out == DataWrite([env(g.st.k).vBus, env(g.st.k).fSend], env(g.st.k).sink,
                              InitialIoConfig, InitialIoConfig) && out.Wrote?
    ensures Inv(cfg, files, env, used, Advanced(cfg, g, w, out, env(g.st.k)))
  {
    StepHead(cfg, g, w, out, env(g.st.k));
    StepLogs(cfg, files, env, used, g, w, out);
  }

  /** What the script leaves: how it ended, `cs_stat`, `io_config`, the init
      loop, the step read loops and the reads consumed before each, the
      writes, the injections, and the saved `cs_num` (empty when the script
      raised before saving). */
  datatype ScriptOutput = ScriptOutput(ending: ScriptEnding, st: CsStat, io: IoConfig, init: CounterWait,
                                       waits: seq<CounterWait>, rb: seq<nat>, sent: seq<WriteOutcome>,
                                       loads: seq<(real, real)>, table: seq<seq<real>>)

  /** `pd.DataFrame(data=cs_num)`: every row of the table. */
  method Snapshot(table: array2<real>) returns (rows: seq<seq<real>>)
    ensures |rows| == table.Length0 && forall i :: 0 <= i < table.Length0 ==> rows[i] == MainLoop.RowAt(table, i)
  {
    rows := [];
    var i := 0;
    while i < table.Length0
      invariant i <= table.Length0 && |rows| == i
      invariant forall j :: 0 <= j < i ==> rows[j] == MainLoop.RowAt(table, j)
    {
      var row := [];
      var c := 0;
      while c < table.Length1
        invariant c <= table.Length1 && row == MainLoop.RowAt(table, i)[..c]
      {
        row := row + [table[i, c]];
        c := c + 1;
      }
      rows := rows + [row];
      i := i + 1;
    }
  }

  /** The saved table: row `s` of a recorded step, `-1` everywhere after. */
  ghost predicate SavedTable(cfg: LtbConfig, env: nat -> LtbEnv, waits: seq<CounterWait>, rows: seq<seq<real>>,
                             n: nat)
  {
    |rows| == cfg.rows && n <= cfg.rows && n <= |waits| && (forall i :: 0 <= i < n ==> waits[i].CounterWait?)
    && (forall i :: 0 <= i < n ==> rows[i] == Row(i, waits[i], env(i)))
    && (forall i :: n <= i < cfg.rows ==> rows[i] == Unwritten())
  }

  lemma SavedRecorded(cfg: LtbConfig, env: nat -> LtbEnv, waits: seq<CounterWait>, table: array2<real>, n: nat,
                      rows: seq<seq<real>>)
    requires Recorded(cfg, env, waits, table, n)
    requires |rows| == table.Length0 && forall i :: 0 <= i < table.Length0 ==> rows[i] == MainLoop.RowAt(table, i)
    ensures SavedTable(cfg, env, waits, rows, n)
  {
    forall i | 0 <= i < n
      ensures rows[i] == Row(i, waits[i], env(i))
    {
      assert MainLoop.RowAt(table, i) == Row(i, waits[i], env(i));
    }
    forall i | n <= i < cfg.rows
      ensures rows[i] == Unwritten()
    {
      assert MainLoop.RowAt(table, i) == Unwritten();
    }
  }

  /** The `i`-th read loop of a chain stopped on the first read after its
      start that carried `Target(i)`, which was readable, and took its `p`,
      `q` from that read. */
  lemma StepReading(files: seq<FileState>, waits: seq<CounterWait>, rb: seq<nat>, i: nat)
    requires Chain(files, waits, rb) && i < |waits|
    ensures rb[i] < rb[i + 1] <= |files|
    ensures var last := files[rb[i + 1] - 1];
            Readable(last) && Counter(last, InitialIoConfig.kDf) == Target(i)
            && waits[i].p == Decode(ParseTriple(last.text).value.p, InitialIoConfig)
            && waits[i].q == Decode(ParseTriple(last.text).value.q, InitialIoConfig)
    ensures forall j :: rb[i] <= j < rb[i + 1] - 1 ==> Counter(files[j], InitialIoConfig.kDf) != Target(i)
  {
    var fs := files[rb[i]..];
    var w := waits[i];
    assert w == StepSpec(fs, i) && w.CounterWait? && rb[i + 1] == rb[i] + w.used;
    StepSpecReading(fs, i, w);
    assert fs[w.used - 1] == files[rb[i + 1] - 1];
    forall j | rb[i] <= j < rb[i + 1] - 1
      ensures Counter(files[j], InitialIoConfig.kDf) != Target(i)
    {
      assert fs[j - rb[i]] == files[j];
    }
  }

  /** `WaitStopsOnTarget` for the read loop of step `s`. */
  lemma StepSpecReading(fs: seq<FileState>, s: nat, w: CounterWait)
    requires w == StepSpec(fs, s) && w.CounterWait?
    ensures 1 <= w.used <= |fs| && Readable(fs[w.used - 1]) && Counter(fs[w.used - 1], InitialIoConfig.kDf) == Target(s)
    ensures w.p == Decode(ParseTriple(fs[w.used - 1].text).value.p, InitialIoConfig)
    ensures w.q == Decode(ParseTriple(fs[w.used - 1].text).value.q, InitialIoConfig)
    ensures forall j :: 0 <= j < w.used - 1 ==> Counter(fs[j], InitialIoConfig.kDf) != Target(s)
  {
    WaitStopsOnTarget(fs, Target(s), Target(s) - 1, 0.0, 0.0, InitialIoConfig);
  }

  /** Row `i` of the saved table holds the step's `ks` and counter, and the
      decoded `p`, `q` of the first read of that step that carried the
      counter. */
  lemma SavedReadings(cfg: LtbConfig, files: seq<FileState>, env: nat -> LtbEnv, waits: seq<CounterWait>,
                      rb: seq<nat>, rows: seq<seq<real>>, n: nat, i: nat)
    requires Chain(files, waits, rb) && SavedTable(cfg, env, waits, rows, n) && i < n
    ensures rb[i] < rb[i + 1] <= |files|
    ensures var last := files[rb[i + 1] - 1];
            Readable(last) && rows[i][4] == Decode(ParseTriple(last.text).value.p, InitialIoConfig)
            && rows[i][5] == Decode(ParseTriple(last.text).value.q, InitialIoConfig)
    ensures rows[i][0] == Ks(i) as real && rows[i][2] == Target(i) as real
  {
    StepReading(files, waits, rb, i);
    assert rows[i] == Row(i, waits[i], env(i));
  }

  /** The whole script after its setup: the init loop from `kr = -1`, the
      step loop, and the saved table. */
  method RunScript(cfg: LtbConfig, files: seq<FileState>, env: nat -> LtbEnv) returns (r: ScriptOutput)
    ensures r.init == WaitSpec(files, CoSim.InitCounter, InitialCsStat.kr, 0.0, 0.0, InitialIoConfig)
    ensures r.init.WaitStarved? ==>
              r.ending == ReadsRanOut && r.waits == [] && SavedTable(cfg, env, r.waits, r.table, 0)
    ensures r.init.CounterWait? ==>
              Chain(files, r.waits, r.rb) && r.rb[0] == r.init.used
              && r.st.k == |r.waits| == |r.sent| <= cfg.rows && SentAll(env, r.sent) && LoadsAll(cfg, r.waits, r.loads)
              && |r.loads| == (if r.ending == WriteFailed then r.st.k - 1 else r.st.k)
              && r.st.iterTotal == |r.loads| && r.st.iterFail == LateCount(env, r.st.iterTotal)
    ensures r.ending == Completed ==> r.init.CounterWait? && r.st.k == cfg.rows
    ensures r.ending == WriteFailed ==> |r.sent| > 0 && r.sent[|r.sent| - 1].Raised? && r.table == []
    ensures r.ending == ReadsRanOut && r.init.CounterWait? ==>
              StepSpec(files[r.rb[r.st.k]..], r.st.k) == WaitStarved
    ensures r.ending != WriteFailed ==> SavedTable(cfg, env, r.waits, r.table, r.st.iterTotal)
  {
    var table := new real[cfg.rows, NCol]((_, _) => -1.0);
    var init, io := AwaitCounter(files, CoSim.InitCounter, InitialCsStat.kr, 0.0, 0.0, InitialIoConfig);
    if init.WaitStarved? {
      var rows := Snapshot(table);
      SavedRecorded(cfg, env, [], table, 0, rows);
      return ScriptOutput(ReadsRanOut, InitialCsStat, io, init, [], [], [], [], rows);
    }
    InitReads(files, init, io);
    r := Proceed(cfg, files, env, init, io, table);
  }

  /** The script after its init loop saw counter 11: the main loop over the
      rows, then the saved table. */
  method Proceed(cfg: LtbConfig, files: seq<FileState>, env: nat -> LtbEnv, init: CounterWait, io: IoConfig,
                 table: array2<real>)
    returns (r: ScriptOutput)
    requires init.CounterWait? && init.used <= |files| && io == InitialIoConfig.(pDf := init.p, qDf := init.q)
    requires table.Length0 == cfg.rows && table.Length1 == NCol
    requires forall i, c :: 0 <= i < cfg.rows && 0 <= c < NCol ==> table[i, c] == -1.0
    modifies table
    ensures r.init == init
    ensures Chain(files, r.waits, r.rb) && r.rb[0] == r.init.used
            && r.st.k == |r.waits| == |r.sent| <= cfg.rows && SentAll(env, r.sent) && LoadsAll(cfg, r.waits, r.loads)
            && |r.loads| == (if r.ending == WriteFailed then r.st.k - 1 else r.st.k)
            && r.st.iterTotal == |r.loads| && r.st.iterFail == LateCount(env, r.st.iterTotal)
    ensures r.ending == Completed ==> r.st.k == cfg.rows
    ensures r.ending == WriteFailed ==> |r.sent| > 0 && r.sent[|r.sent| - 1].Raised? && r.table == []
    ensures r.ending == ReadsRanOut ==> StepSpec(files[r.rb[r.st.k]..], r.st.k) == WaitStarved
    ensures r.ending != WriteFailed ==> SavedTable(cfg, env, r.waits, r.table, r.st.iterTotal)
  {
    StartedInv(cfg, files, env, init, io);
    var g := Started(init, io);
    g := Steps(cfg, files, env, init.used, g, table);
    var rows := [];
    if g.ending != WriteFailed {
      rows := Snapshot(table);
      SavedRecorded(cfg, env, g.waits, table, g.st.iterTotal, rows);
    }
    r := ScriptOutput(g.ending, g.st, g.io, init, g.waits, g.rb, g.sent, g.loads, rows);
  }

  /** The state after the init loop: counter 11, its `p`, `q`, and `kr0 = 11`. */
  function Started(init: CounterWait, io: IoConfig): Script
    requires init.CounterWait?
  {
    Script(InitialCsStat.(kr := CoSim.InitCounter, p := init.p, q := init.q), CoSim.InitCounter, io,
           init.used, [], [init.used], [], [], Completed)
  }

  /** The init loop leaves `io_config` holding the values it returned. */
  lemma InitReads(files: seq<FileState>, init: CounterWait, io: IoConfig)
    requires init == WaitSpec(files, CoSim.InitCounter, InitialCsStat.kr, 0.0, 0.0, InitialIoConfig)
    requires init.CounterWait?
    requires io == InitialIoConfig.(pDf := LastRead(files[..init.used], InitialIoConfig).0,
                                    qDf := LastRead(files[..init.used], InitialIoConfig).1)
    ensures init.used <= |files| && io == InitialIoConfig.(pDf := init.p, qDf := init.q)
  {
  }

  /** The loop invariant holds at the first step. */
  lemma StartedInv(cfg: LtbConfig, files: seq<FileState>, env: nat -> LtbEnv, init: CounterWait, io: IoConfig)
    requires init.CounterWait? && init.used <= |files| && io == InitialIoConfig.(pDf := init.p, qDf := init.q)
    ensures Inv(cfg, files, env, init.used, Started(init, io))
  {
    assert Target(0) == CoSim.InitCounter + 1 && Ks(0) == 1;
    assert InvHead(cfg, Started(init, io));
  }

  /** `while cs_stat['k'] < rows`. */
  method Steps(cfg: LtbConfig, files: seq<FileState>, env: nat -> LtbEnv, used: nat, g0: Script,
               table: array2<real>)
    returns (g: Script)
    requires Inv(cfg, files, env, used, g0) && g0.st.k == 0
    requires table.Length0 == cfg.rows && table.Length1 == NCol
    requires forall i, c :: 0 <= i < cfg.rows && 0 <= c < NCol ==> table[i, c] == -1.0
    modifies table
    ensures Final(cfg, files, env, used, g) && Recorded(cfg, env, g.waits, table, g.st.iterTotal)
  {
    g := g0;
    while g.st.k < cfg.rows
      invariant Inv(cfg, files, env, used, g) && Recorded(cfg, env, g.waits, table, g.st.k)
      decreases cfg.rows - g.st.k
    {
      var g' := ScriptStep(cfg, files, env, used, g, table);
      if g'.ending != Completed {
        g := g';
        break;
      }
      g := g';
    }
    if g.ending == Completed {
      assert Final(cfg, files, env, used, g);
    }
  }
}
