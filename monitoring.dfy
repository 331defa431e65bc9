/** The monitor loop (monitoring.py, `start_monitoring`). Each iteration
    reads what was appended to the access log since the cursor, parses it,
    bulk-inserts the parsed rows, and for each distinct source address in the
    batch queries its trailing window, computes the features, classifies them
    and writes the verdict back onto that window's rows.

    The world outside the process is the input of an iteration, a `Tick`: the
    log file's content (or its absence), the clock reading, and which store
    operations fail. The sleeps become the `Delay` an iteration ends with. */
module Monitoring {
  import opened Common
  import opened Database
  import Utils
  import Model
  import Tailer
  import LineParser

  /** Which store operations fail in one iteration: the bulk insert, and the
      window query and update for the k-th address of the batch. */
  datatype Faults = Faults(insert: Fault, query: seq<Fault>, update: seq<Fault>)

  function FaultAt(fs: seq<Fault>, k: nat): Fault {
    if k < |fs| then fs[k] else Healthy
  }

  predicate AllHealthy(faults: Faults) {
    && faults.insert == Healthy
    && (forall k :: 0 <= k < |faults.query| ==> faults.query[k] == Healthy)
    && (forall k :: 0 <= k < |faults.update| ==> faults.update[k] == Healthy)
  }

  /** The world as one iteration sees it: the log file's content (`None` when
      it does not exist), `pd.Timestamp.now()`, and the store's failures. */
  datatype Tick = Tick(file: Option<string>, now: int, faults: Faults)

  /** How an iteration ends: `time.sleep(1)` after an empty poll, no sleep
      after a batch without parsable lines, `time.sleep(5)` otherwise. */
  datatype Delay = IdleWait | Restart | Backoff

  function Seconds(d: Delay): nat {
    match d
    case IdleWait => 1
    case Restart => 0
    case Backoff => 5
  }

  /** What the loop holds fixed: the window length, the fitted model, and
      the line parser (`LineParser.ParseLineAsWritten` in the program). */
  datatype Config = Config(windowSize: int, classes: seq<string>, forest: Model.Forest, parse: LineParser.Parser)

  // ---------------------------------------------------------------------------
  // One batch

  /** The `url` column of a frame. */
  function Urls(rows: seq<Row>): (urls: seq<string>)
    ensures |urls| == |rows|
    ensures forall i :: 0 <= i < |rows| ==> urls[i] == rows[i].url
  {
    if rows == [] then [] else [rows[0].url] + Urls(rows[1..])
  }

  predicate NoDup(s: seq<string>) {
    forall i, j :: 0 <= i < j < |s| ==> s[i] != s[j]
  }

  /** Some entry of the batch comes from `ip`. */
  predicate HasIp(es: seq<Entry>, ip: string) {
    exists i :: 0 <= i < |es| && es[i].ip == ip
  }

  /** `df['ip'].unique()`: each address of the batch once, in order of first appearance. */
  function DistinctIps(es: seq<Entry>): (ips: seq<string>)
    ensures NoDup(ips)
    ensures forall ip :: ip in ips <==> HasIp(es, ip)
  {
    if es == [] then []
    else
      var front := es[..|es| - 1];
      var ips := DistinctIps(front);
      var last := es[|es| - 1].ip;
      assert forall ip :: HasIp(es, ip) <==> ip == last || HasIp(front, ip) by {
        forall ip ensures HasIp(es, ip) <==> ip == last || HasIp(front, ip) {
          if HasIp(front, ip) {
            var i :| 0 <= i < |front| && front[i].ip == ip;
            assert es[i] == front[i];
          }
          if HasIp(es, ip) {
            var i :| 0 <= i < |es| && es[i].ip == ip;
            if i < |front| {
              assert front[i] == es[i];
            }
          }
        }
      }
      if last in ips then ips else ips + [last]
  }

  /** Entry `i` is the batch's first entry from `ip`. */
  predicate FirstSeen(es: seq<Entry>, ip: string, i: int) {
    0 <= i < |es| && es[i].ip == ip && forall j :: 0 <= j < i ==> es[j].ip != ip
  }

  /** `unique()` lists the addresses in the order they first appear: of two
      listed addresses, the earlier one's first entry comes first. */
  lemma {:induction false} DistinctIpsInFirstOrder(es: seq<Entry>, k: nat, l: nat, i: int, j: int)
    requires k < l < |DistinctIps(es)|
    requires FirstSeen(es, DistinctIps(es)[k], i) && FirstSeen(es, DistinctIps(es)[l], j)
    ensures i < j
  {
    var front := es[..|es| - 1];
    var ips := DistinctIps(front);
    var last := es[|es| - 1].ip;
    assert HasIp(front, DistinctIps(es)[k]) by {
      assert DistinctIps(es)[k] in ips;
    }
    var m :| 0 <= m < |front| && front[m].ip == DistinctIps(es)[k];
    assert es[m] == front[m];
    assert i <= m;
    if l < |ips| {
      assert DistinctIps(es)[l] in ips;
      var n :| 0 <= n < |front| && front[n].ip == DistinctIps(es)[l];
      assert es[n] == front[n];
      assert j <= n;
      assert FirstSeen(front, ips[k], i) by {
        forall h | 0 <= h < i ensures front[h].ip != ips[k] {
          assert front[h] == es[h];
        }
      }
      assert FirstSeen(front, ips[l], j) by {
        forall h | 0 <= h < j ensures front[h].ip != ips[l] {
          assert front[h] == es[h];
        }
      }
      DistinctIpsInFirstOrder(front, k, l, i, j);
    } else {
      assert DistinctIps(es)[l] == last && last !in ips;
      assert !HasIp(front, last);
      assert forall h :: 0 <= h < |front| ==> front[h] == es[h];
    }
  }

  /** `int(model.predict(features)[0])` for one address's window features. */
  function Decision(cfg: Config, ip: string, f: Utils.WindowFeatures): (decision: int)
    ensures decision == 0 || decision == 1
  {
    if cfg.forest(Model.FeatureRow(Model.Encode(cfg.classes, ip), f.requestRate, f.uniqueUrlsProxy)) then 1 else 0
  }

  datatype SweepResult = SweepResult(rows: seq<Row>, raised: bool)

  /** The per-address loop over `ips[k..]`, all with window start `start`. An
      address whose window is empty is skipped; otherwise its features and
      prediction are written onto its window. A failing window query, a
      failing connection for the update, or a zero window length (division
      by zero in `compute_features`) raises and ends the batch. */
  function Sweep(rows: seq<Row>, ips: seq<string>, k: nat, start: int, cfg: Config, faults: Faults): (out: SweepResult)
    requires k <= |ips|
    decreases |ips| - k
    ensures |out.rows| == |rows| && Keys(out.rows) == Keys(rows)
  {
    if k == |ips| then SweepResult(rows, false)
    else
      var ip := ips[k];
      var qf := FaultAt(faults.query, k);
      if qf != Healthy then SweepResult(rows, true)
      else
        var df := Window(rows, ip, start);
        if df == [] then Sweep(rows, ips, k + 1, start, cfg, faults)
        else if cfg.windowSize == 0 then SweepResult(rows, true)
        else
          var f := Utils.ComputeFeatures(Urls(df), cfg.windowSize);
          var uf := FaultAt(faults.update, k);
          if uf == ConnectFails then SweepResult(rows, true)
          else
            var next := if uf == Healthy
                        then Annotate(rows, ip, f.requestRate, f.uniqueUrlsProxy, Decision(cfg, ip, f), start)
                        else rows;
            Sweep(next, ips, k + 1, start, cfg, faults)
  }

  /** The verdict a row carries: the features of window `w` and the prediction for them. */
  predicate Carries(r: Row, w: seq<Row>, cfg: Config)
    requires cfg.windowSize != 0
  {
    var f := Utils.ComputeFeatures(Urls(w), cfg.windowSize);
    r.requestRate == f.requestRate && r.uniqueUrlsProxy == f.uniqueUrlsProxy
    && r.prediction == Decision(cfg, r.ip, f)
  }

  /** `after` is `before` with every row of a `swept` address that lies in the
      window carrying the verdict of that address's window in `before`, and
      every other row unchanged. */
  predicate Labelled(before: seq<Row>, after: seq<Row>, swept: seq<string>, start: int, cfg: Config)
    requires cfg.windowSize != 0
  {
    && |after| == |before|
    && forall i :: 0 <= i < |before| ==>
      if before[i].ip in swept && before[i].timestamp >= start
      then Carries(after[i], Window(before, before[i].ip, start), cfg)
      else after[i] == before[i]
  }

  /** With a healthy store and a non-zero window, the sweep labels every row of
      every swept address that lies in the window with the features of that
      address's window as the query returned it, and changes no other row. */
  lemma {:induction false} SweepLabelsWindows(rows: seq<Row>, ips: seq<string>, k: nat, start: int, cfg: Config, faults: Faults)
    requires k <= |ips| && NoDup(ips) && cfg.windowSize != 0
    requires forall j :: k <= j < |ips| ==> FaultAt(faults.query, j) == Healthy && FaultAt(faults.update, j) == Healthy
    ensures var out := Sweep(rows, ips, k, start, cfg, faults);
      !out.raised && Labelled(rows, out.rows, ips[k..], start, cfg)
    decreases |ips| - k
  {
    if k < |ips| {
      var ip := ips[k];
      var w := Window(rows, ip, start);
      var out := Sweep(rows, ips, k, start, cfg, faults);
      assert forall x :: x in ips[k..] <==> x == ip || x in ips[k + 1..] by {
        assert ips[k..] == [ip] + ips[k + 1..];
      }
      assert ip !in ips[k + 1..] by {
        forall j | k + 1 <= j < |ips| ensures ips[j] != ip {
        }
      }
      if w == [] {
        SweepLabelsWindows(rows, ips, k + 1, start, cfg, faults);
        forall i | 0 <= i < |rows| ensures !InWindow(rows[i], ip, start) {
          assert rows[i] in rows;
        }
      } else {
        var f := Utils.ComputeFeatures(Urls(w), cfg.windowSize);
        var next := Annotate(rows, ip, f.requestRate, f.uniqueUrlsProxy, Decision(cfg, ip, f), start);
        assert out == Sweep(next, ips, k + 1, start, cfg, faults);
        SweepLabelsWindows(next, ips, k + 1, start, cfg, faults);
        LabelledAfterAnnotate(rows, next, out.rows, ips[k..], ip, start, cfg);
      }
    }
  }

  /** One address's update followed by a sweep that labels the rest gives a
      sweep that labels that address too. */
  lemma LabelledAfterAnnotate(rows: seq<Row>, next: seq<Row>, after: seq<Row>, swept: seq<string>,
                              ip: string, start: int, cfg: Config)
    requires cfg.windowSize != 0 && swept != [] && swept[0] == ip && ip !in swept[1..]
    requires forall x :: x in swept <==> x == ip || x in swept[1..]
    requires var f := Utils.ComputeFeatures(Urls(Window(rows, ip, start)), cfg.windowSize);
      next == Annotate(rows, ip, f.requestRate, f.uniqueUrlsProxy, Decision(cfg, ip, f), start)
    requires Labelled(next, after, swept[1..], start, cfg)
    ensures Labelled(rows, after, swept, start, cfg)
  {
    var f := Utils.ComputeFeatures(Urls(Window(rows, ip, start)), cfg.windowSize);
    forall i | 0 <= i < |rows|
      ensures if rows[i].ip in swept && rows[i].timestamp >= start
              then Carries(after[i], Window(rows, rows[i].ip, start), cfg)
              else after[i] == rows[i]
    {
      assert Key(next[i]) == Keys(next)[i] == Keys(rows)[i] == Key(rows[i]);
      if rows[i].ip == ip && rows[i].timestamp >= start {
        assert after[i] == next[i];
      } else if rows[i].ip in swept[1..] && rows[i].timestamp >= start {
        assert next[i] == rows[i];
        WindowOfOtherIp(rows, ip, f.requestRate, f.uniqueUrlsProxy, Decision(cfg, ip, f), start, rows[i].ip, start);
      } else {
        assert next[i] == rows[i];
      }
    }
  }

  // ---------------------------------------------------------------------------
  // One iteration

  datatype StepOutcome = StepOutcome(cursor: nat, rows: seq<Row>, delay: Delay)

  /** One pass of the `while True` body. A missing log file makes `open` raise,
      which the generic handler turns into the 5-second backoff. The cursor
      moves before anything is inserted, so a batch whose processing raises is
      not read again. */
  function StepSpec(cursor: nat, rows: seq<Row>, tick: Tick, cfg: Config): StepOutcome {
    match tick.file
    case None => StepOutcome(cursor, rows, Backoff)
    case Some(content) =>
      var p := Tailer.Poll(content, cursor);
      if p.lines == [] then StepOutcome(p.cursor, rows, IdleWait)
      else
        var es := LineParser.ParseBatch(cfg.parse, p.lines);
        if es == [] then StepOutcome(p.cursor, rows, Restart)
        else StepOutcome(p.cursor, InsertAndSweep(rows, es, WindowStart(tick.now, cfg.windowSize), tick.faults, cfg), Backoff)
  }

  /** A log file holding one line: an iteration from the start of the file
      restarts at once and stores nothing when the line does not parse, and
      otherwise stores its request and backs off. */
  lemma OneLineStep(rows: seq<Row>, line: string, now: int, faults: Faults, cfg: Config)
    requires Tailer.IsLine(line) && line[|line| - 1] == '\n'
    requires faults.insert == Healthy
    ensures var out := StepSpec(0, rows, Tick(Some(line), now, faults), cfg);
      && (cfg.parse(line).None? ==> out == StepOutcome(|line|, rows, Restart))
      && (cfg.parse(line).Some? ==>
            out.cursor == |line| && out.delay == Backoff && Keys(out.rows) == Keys(rows) + [cfg.parse(line).value])
  {
    Tailer.LineThen(line, []);
    assert line + [] == line && line[0..] == line;
    assert [line][..0] == [];
    if cfg.parse(line).Some? {
      KeysAfterInsert(rows, [cfg.parse(line).value]);
    }
  }

  /** A log file holding only the front end's line for a request whose path
      contains `Time: `: the loop as written stores nothing and restarts at
      once, while the corrected loop stores the request and backs off. */
  lemma TimeInUrlStep(rows: seq<Row>, now: int, faults: Faults, cfg: Config)
    requires faults.insert == Healthy
    ensures var line := LineParser.ProducerLine("1.2.3.4", "/Time: 5?", 7);
      var asWritten := StepSpec(0, rows, Tick(Some(line), now, faults), cfg.(parse := LineParser.ParseLineAsWritten));
      var corrected := StepSpec(0, rows, Tick(Some(line), now, faults), cfg.(parse := LineParser.ParseLine));
      && asWritten == StepOutcome(|line|, rows, Restart)
      && corrected.cursor == |line| && corrected.delay == Backoff
      && Keys(corrected.rows) == Keys(rows) + [Entry("1.2.3.4", 7, "/Time: 5?")]
  {
    var line := LineParser.ProducerLine("1.2.3.4", "/Time: 5?", 7);
    ExampleIsLine();
    LineParser.TimeInUrlIsDropped();
    LineParser.TimeInUrlIsRead();
    OneLineStep(rows, line, now, faults, cfg.(parse := LineParser.ParseLineAsWritten));
    OneLineStep(rows, line, now, faults, cfg.(parse := LineParser.ParseLine));
  }

  lemma ExampleIsLine()
    ensures var line := LineParser.ProducerLine("1.2.3.4", "/Time: 5?", 7);
      Tailer.IsLine(line) && line[|line| - 1] == '\n'
  {
    var line := LineParser.ProducerLine("1.2.3.4", "/Time: 5?", 7);
    LineParser.ExampleLine();
    forall k | 0 <= k < |line| - 1 ensures line[k] != '\n' {
    }
  }

  /** `current_time - pd.Timedelta(seconds=window_size)`: the oldest timestamp a window keeps. */
  function WindowStart(now: int, windowSize: int): int {
    now - windowSize
  }

  lemma StepOfBatch(cursor: nat, rows: seq<Row>, tick: Tick, cfg: Config, p: Tailer.PollResult, es: seq<Entry>)
    requires tick.file.Some? && p == Tailer.Poll(tick.file.value, cursor) && p.lines != []
    requires es == LineParser.ParseBatch(cfg.parse, p.lines) && es != []
    ensures StepSpec(cursor, rows, tick, cfg)
         == StepOutcome(p.cursor, InsertAndSweep(rows, es, WindowStart(tick.now, cfg.windowSize), tick.faults, cfg), Backoff)
  {
  }

  /** The table after a parsed batch: the bulk insert (kept only when it
      commits; a failing connection raises before the sweep), then the sweep of
      the batch's addresses from window start `start` (`current_time - window_size`). */
  function InsertAndSweep(rows: seq<Row>, es: seq<Entry>, start: int, faults: Faults, cfg: Config): seq<Row> {
    if faults.insert == ConnectFails then rows
    else
      var inserted := if faults.insert == Healthy then rows + FreshRows(es) else rows;
      Sweep(inserted, DistinctIps(es), 0, start, cfg, faults).rows
  }

  /** The loop never stops: an iteration waits one second exactly when the poll
      read nothing, restarts at once exactly when it read lines none of which
      parse, and backs off five seconds in every other case, errors included. */
  lemma StepDelay(cursor: nat, rows: seq<Row>, tick: Tick, cfg: Config)
    ensures var d := StepSpec(cursor, rows, tick, cfg).delay;
      && (d == IdleWait <==> tick.file.Some? && Tailer.Poll(tick.file.value, cursor).lines == [])
      && (d == Restart <==> tick.file.Some? && Tailer.Poll(tick.file.value, cursor).lines != []
                            && LineParser.ParseBatch(cfg.parse, Tailer.Poll(tick.file.value, cursor).lines) == [])
      && (d == Backoff <==> tick.file.None?
                            || LineParser.ParseBatch(cfg.parse, Tailer.Poll(tick.file.value, cursor).lines) != [])
  {
    if tick.file.Some? {
      var p := Tailer.Poll(tick.file.value, cursor);
      if p.lines == [] {
        assert LineParser.ParseBatch(cfg.parse, p.lines) == [];
      }
    }
  }

  /** The cursor never moves back, and the table only grows: its keys before
      the iteration are kept, followed by either nothing or exactly the parsed
      batch, in line order. */
  lemma StepKeepsHistory(cursor: nat, rows: seq<Row>, tick: Tick, cfg: Config)
    ensures var out := StepSpec(cursor, rows, tick, cfg);
      && cursor <= out.cursor
      && (Keys(out.rows) == Keys(rows)
          || (tick.file.Some? &&
              Keys(out.rows) == Keys(rows) + LineParser.ParseBatch(cfg.parse, Tailer.Poll(tick.file.value, cursor).lines)))
  {
    if tick.file.Some? {
      var p := Tailer.Poll(tick.file.value, cursor);
      var es := LineParser.ParseBatch(cfg.parse, p.lines);
      if p.lines != [] && es != [] && tick.faults.insert == Healthy {
        KeysAfterInsert(rows, es);
      }
    }
  }

  /** A batch none of whose lines parse writes nothing to the store. */
  lemma EmptyBatchWritesNothing(cursor: nat, rows: seq<Row>, tick: Tick, cfg: Config)
    requires tick.file.Some?
    requires LineParser.ParseBatch(cfg.parse, Tailer.Poll(tick.file.value, cursor).lines) == []
    ensures StepSpec(cursor, rows, tick, cfg).rows == rows
  {
  }

  /** With a healthy store and a non-zero window, a batch is appended in line
      order and every row of a batch address that lies in its window, the new
      rows included, carries the features and prediction of that address's
      window over the grown table; all other rows are unchanged. */
  lemma BatchLabelsWindows(rows: seq<Row>, es: seq<Entry>, start: int, faults: Faults, cfg: Config)
    requires AllHealthy(faults) && cfg.windowSize != 0
    ensures Keys(InsertAndSweep(rows, es, start, faults, cfg)) == Keys(rows) + es
    ensures Labelled(rows + FreshRows(es), InsertAndSweep(rows, es, start, faults, cfg), DistinctIps(es), start, cfg)
  {
    KeysAfterInsert(rows, es);
    SweepLabelsAll(rows + FreshRows(es), DistinctIps(es), start, cfg, faults);
  }

  lemma SweepLabelsAll(rows: seq<Row>, ips: seq<string>, start: int, cfg: Config, faults: Faults)
    requires NoDup(ips) && cfg.windowSize != 0 && AllHealthy(faults)
    ensures var out := Sweep(rows, ips, 0, start, cfg, faults);
      |out.rows| == |rows| && Keys(out.rows) == Keys(rows) && Labelled(rows, out.rows, ips, start, cfg)
  {
    SweepLabelsWindows(rows, ips, 0, start, cfg, faults);
    assert ips[0..] == ips;
  }

  // ---------------------------------------------------------------------------
  // The whole loop

  datatype RunOutcome = RunOutcome(cursor: nat, rows: seq<Row>, delays: seq<Delay>)

  /** The loop's effect over a sequence of iterations. */
  function RunSpec(cursor: nat, rows: seq<Row>, ticks: seq<Tick>, cfg: Config): (out: RunOutcome)
    ensures |out.delays| == |ticks|
  {
    if ticks == [] then RunOutcome(cursor, rows, [])
    else
      var before := RunSpec(cursor, rows, ticks[..|ticks| - 1], cfg);
      var s := StepSpec(before.cursor, before.rows, ticks[|ticks| - 1], cfg);
      RunOutcome(s.cursor, s.rows, before.delays + [s.delay])
  }

  predicate KeysPrefix(a: seq<Row>, b: seq<Row>) {
    |a| <= |b| && Keys(b)[..|a|] == Keys(a)
  }

  /** Over any number of iterations the cursor never moves back and no row
      written earlier is removed or has its request columns changed. */
  lemma {:induction false} RunKeepsHistory(cursor: nat, rows: seq<Row>, ticks: seq<Tick>, cfg: Config)
    ensures var out := RunSpec(cursor, rows, ticks, cfg);
      cursor <= out.cursor && KeysPrefix(rows, out.rows)
  {
    if ticks != [] {
      var front := ticks[..|ticks| - 1];
      var before := RunSpec(cursor, rows, front, cfg);
      RunKeepsHistory(cursor, rows, front, cfg);
      StepKeepsPrefix(before.cursor, before.rows, ticks[|ticks| - 1], cfg);
      var after := StepSpec(before.cursor, before.rows, ticks[|ticks| - 1], cfg);
      KeysPrefixTrans(rows, before.rows, after.rows);
    }
  }

  lemma StepKeepsPrefix(cursor: nat, rows: seq<Row>, tick: Tick, cfg: Config)
    ensures var out := StepSpec(cursor, rows, tick, cfg);
      cursor <= out.cursor && KeysPrefix(rows, out.rows)
  {
    StepKeepsHistory(cursor, rows, tick, cfg);
    var ks, out := Keys(rows), StepSpec(cursor, rows, tick, cfg);
    if Keys(out.rows) != ks {
      var extra := LineParser.ParseBatch(cfg.parse, Tailer.Poll(tick.file.value, cursor).lines);
      assert (ks + extra)[..|ks|] == ks;
    }
  }

  lemma KeysPrefixTrans(a: seq<Row>, b: seq<Row>, c: seq<Row>)
    requires KeysPrefix(a, b) && KeysPrefix(b, c)
    ensures KeysPrefix(a, c)
  {
    assert Keys(c)[..|a|] == Keys(c)[..|b|][..|a|];
  }

  /** While the log file exists in every iteration, the cursor moves exactly as
      successive polls of its snapshots do, so with an append-only file every
      byte written after startup is read exactly once. */
  lemma {:induction false} RunCursorFollowsPolls(cursor: nat, rows: seq<Row>, ticks: seq<Tick>, cfg: Config,
                                                 snapshots: seq<string>)
    requires |snapshots| == |ticks|
    requires forall i :: 0 <= i < |ticks| ==> ticks[i].file == Some(snapshots[i])
    ensures RunSpec(cursor, rows, ticks, cfg).cursor == Tailer.ReadAll(cursor, snapshots).1
  {
    if ticks != [] {
      var n := |ticks|;
      RunCursorFollowsPolls(cursor, rows, ticks[..n - 1], cfg, snapshots[..n - 1]);
    }
  }

  // ---------------------------------------------------------------------------
  // The monitor

  datatype StartError =
    | InitDbFailed                   // init_db raised
    | ModelFailed(Model.ModelError)  // DDoSModel() raised

  class Monitor {
    /** `last_pos`. */
    var cursor: nat
    /** `window_size`. */
    const windowSize: int
    /** Which time field the line loop reads. */
    const parse: LineParser.Parser
    const store: Store
    const model: Model.DDoSModel

    ghost predicate Valid()
      reads this, store, model
    {
      store.tableExists && model.Valid()
    }

    function Cfg(): (cfg: Config)
      reads model
      ensures cfg.windowSize == windowSize && cfg.classes == model.classes && cfg.forest == model.forest
      ensures cfg.parse == parse
    {
      Config(windowSize, model.classes, model.forest, parse)
    }

    constructor (store: Store, model: Model.DDoSModel, cursor: nat, windowSize: int, parse: LineParser.Parser)
      ensures this.store == store && this.model == model
      ensures this.cursor == cursor && this.windowSize == windowSize && this.parse == parse
    {
      this.parse := parse;
      this.store := store;
      this.model := model;
      this.cursor := cursor;
      this.windowSize := windowSize;
    }

    /** `start_monitoring` up to the loop: create the table, load or train the
        model, and put the cursor at the end of the log (0 when there is none). */
    static method Start(store: Store, initFault: Fault, disk: Model.Disk, learn: Model.Learner,
                        file: Option<string>, windowSize: int)
      returns (r: Result<Monitor, StartError>)
      requires disk.Valid()
      modifies store, disk
      ensures store.rows == old(store.rows)
      ensures initFault != Healthy ==> r == Err(InitDbFailed) && unchanged(disk)
      ensures initFault == Healthy && old(disk.modelFile).Some? && old(disk.encoderFile).None? ==>
        r == Err(ModelFailed(Model.EncoderMissing))
      ensures initFault == Healthy && old(disk.modelFile).None? && old(disk.trainingCsv).None? ==>
        r == Err(ModelFailed(Model.TrainingDataMissing))
      ensures (initFault == Healthy && old(disk.modelFile).None? && old(disk.trainingCsv).Some?
               && !Model.Trainable(old(disk.trainingCsv).value)) ==>
        r == Err(ModelFailed(Model.SplitFailed))
      ensures initFault == Healthy
        && (old(disk.modelFile).Some? ==> old(disk.encoderFile).Some?)
        && (old(disk.modelFile).None? ==> old(disk.trainingCsv).Some? && Model.Trainable(old(disk.trainingCsv).value))
        ==> r.Ok?
      ensures r.Ok? ==>
        && fresh(r.value) && r.value.Valid()
        && r.value.store == store && r.value.cursor == Tailer.InitialCursor(file)
        && r.value.windowSize == windowSize && r.value.parse == LineParser.ParseLineAsWritten
    {
      var raised := store.InitDb(initFault);
      if raised {
        return Err(InitDbFailed);
      }
      var created := Model.DDoSModel.Create(disk, learn);
      if created.Err? {
        return Err(ModelFailed(created.error));
      }
      var m := new Monitor(store, created.value, Tailer.InitialCursor(file), windowSize, LineParser.ParseLineAsWritten);
      r := Ok(m);
    }

    /** The line loop: every line that parses, in line order. */
    static method ParseLines(parse: LineParser.Parser, lines: seq<string>) returns (es: seq<Entry>)
      ensures es == LineParser.ParseBatch(parse, lines)
    {
      es := [];
      var i := 0;
      while i < |lines|
        invariant 0 <= i <= |lines|
        invariant es == LineParser.ParseBatch(parse, lines[..i])
      {
        var parsed := parse(lines[i]);
        LineParser.ParseBatchStep(parse, lines, i);
        if parsed.Some? {
          es := es + [parsed.value];
        }
        i := i + 1;
      }
      assert lines[..|lines|] == lines;
    }

    /** The per-address loop of one batch. */
    method ClassifyBatch(ips: seq<string>, start: int, faults: Faults) returns (raised: bool)
      requires Valid()
      modifies store
      ensures Valid()
      ensures SweepResult(store.rows, raised) == Sweep(old(store.rows), ips, 0, start, Cfg(), faults)
    {
      var k := 0;
      while k < |ips|
        invariant 0 <= k <= |ips|
        invariant Valid()
        invariant Sweep(old(store.rows), ips, 0, start, Cfg(), faults) == Sweep(store.rows, ips, k, start, Cfg(), faults)
      {
        raised := ClassifyAddress(ips, k, start, faults);
        if raised {
          return;
        }
        k := k + 1;
      }
      raised := false;
    }

    /** One pass of the per-address loop: query the address's window, and if
        it is not empty, compute its features, predict and update its rows. */
    method ClassifyAddress(ips: seq<string>, k: nat, start: int, faults: Faults) returns (raised: bool)
      requires Valid() && k < |ips|
      modifies store
      ensures Valid()
      ensures raised ==> Sweep(old(store.rows), ips, k, start, Cfg(), faults) == SweepResult(store.rows, true)
      ensures !raised ==> Sweep(old(store.rows), ips, k, start, Cfg(), faults)
                          == Sweep(store.rows, ips, k + 1, start, Cfg(), faults)
    {
      var ip := ips[k];
      var df, queryRaised := store.GetLogsInWindow(ip, start, FaultAt(faults.query, k));
      if queryRaised {
        return true;
      }
      if df == [] {
        return false;
      }
      if windowSize == 0 {
        return true;
      }
      var f := Utils.ComputeFeatures(Urls(df), windowSize);
      var code := model.EncodeIp(ip);
      var decision := model.Predict(Model.FeatureRow(code, f.requestRate, f.uniqueUrlsProxy));
      var affected, updateRaised := store.UpdatePrediction(ip, f.requestRate, f.uniqueUrlsProxy, decision, start,
                                                           FaultAt(faults.update, k));
      raised := updateRaised;
    }

    /** The part of an iteration after a non-empty parse: the bulk insert,
        then the sweep unless the insert's connection failed. */
    method InsertAndClassify(es: seq<Entry>, start: int, faults: Faults)
      requires Valid()
      modifies store
      ensures Valid()
      ensures store.rows == InsertAndSweep(old(store.rows), es, start, faults, Cfg())
    {
      var raised := store.LogRequestsBulk(es, faults.insert);
      if raised {
        return;
      }
      raised := ClassifyBatch(DistinctIps(es), start, faults);
    }

    /** One iteration of the loop. */
    method Step(tick: Tick) returns (delay: Delay)
      requires Valid()
      modifies this, store
      ensures Valid()
      ensures StepOutcome(cursor, store.rows, delay) == StepSpec(old(cursor), old(store.rows), tick, Cfg())
    {
      ghost var cursor0, rows0, cfg := cursor, store.rows, Cfg();
      if tick.file.None? {
        return Backoff;
      }
      var p := Tailer.Poll(tick.file.value, cursor);
      cursor := p.cursor;
      if p.lines == [] {
        return IdleWait;
      }
      var es := ParseLines(parse, p.lines);
      if es == [] {
        return Restart;
      }
      InsertAndClassify(es, WindowStart(tick.now, windowSize), tick.faults);
      delay := Backoff;
      StepOfBatch(cursor0, rows0, tick, cfg, p, es);
    }

    /** The `while True` loop over a sequence of iterations. */
    method Run(ticks: seq<Tick>) returns (delays: seq<Delay>)
      requires Valid()
      modifies this, store
      ensures Valid()
      ensures RunOutcome(cursor, store.rows, delays) == RunSpec(old(cursor), old(store.rows), ticks, Cfg())
    {
      delays := [];
      var i := 0;
      while i < |ticks|
        invariant 0 <= i <= |ticks|
        invariant Valid()
        invariant RunOutcome(cursor, store.rows, delays) == RunSpec(old(cursor), old(store.rows), ticks[..i], Cfg())
      {
        assert ticks[..i + 1][..i] == ticks[..i];
        var d := Step(ticks[i]);
        delays := delays + [d];
        i := i + 1;
      }
      assert ticks[..|ticks|] == ticks;
    }
  }
}
