/**
 * The process detector of the application entry point: a name search over
 * the running processes and a polling loop that reports only changes of the
 * observed status.
 */
module ProcessDetection {
  import opened Wrappers

  /**
   * One enumeration of the running processes: the names it yielded, in
   * order, before it ran out or raised (`None` where a process's name could
   * not be read). A raise ends the search with False just as running out
   * does, so only the names yielded before it matter.
   */
  datatype ProcessTable = ProcessTable(names: seq<Option<string>>)

  /** Some process yielded by the enumeration has exactly the name `name`. */
  predicate Listed(table: ProcessTable, name: string) {
    Some(name) in table.names
  }

  /**
   * `check_process_running` as a name search: it returns at the first exact
   * match, and otherwise yields False, whether the enumeration ran out or
   * raised.
   */
  method CheckProcessRunning(table: ProcessTable, name: string) returns (found: bool)
    ensures found <==> Listed(table, name)
  {
    var i := 0;
    while i < |table.names|
      invariant 0 <= i <= |table.names|
      invariant Some(name) !in table.names[..i]
    {
      if table.names[i] == Some(name) {
        return true;
      }
      i := i + 1;
    }
    assert table.names[..i] == table.names;
    return false;
  }

  /**
   * The values the loop emits for the observations `observed`, given the
   * status it last recorded: an observation is emitted exactly when it
   * differs from the status recorded before it.
   */
  function Emissions(last: Option<bool>, observed: seq<bool>): seq<bool>
    decreases |observed|
  {
    if observed == [] then []
    else
      var earlier, b := observed[..|observed| - 1], observed[|observed| - 1];
      Emissions(last, earlier) + (if Some(b) != Recorded(last, earlier) then [b] else [])
  }

  /** The status recorded after `observed`: the last observation, if any. */
  function Recorded(last: Option<bool>, observed: seq<bool>): Option<bool> {
    if observed == [] then last else Some(observed[|observed| - 1])
  }

  /** What a listener that only hears the emitted values believes, starting from `belief`. */
  function Heard(belief: Option<bool>, emitted: seq<bool>): Option<bool> {
    if emitted == [] then belief else Some(emitted[|emitted| - 1])
  }

  /** With no status recorded yet, the first observation is always emitted. */
  lemma {:induction false} FirstObservationEmits(observed: seq<bool>)
    requires observed != []
    ensures Emissions(None, observed) != [] && Emissions(None, observed)[0] == observed[0]
    decreases |observed|
  {
    var earlier := observed[..|observed| - 1];
    if earlier != [] {
      FirstObservationEmits(earlier);
    }
  }

  /**
   * A listener that starts from the detector's recorded status and hears
   * only the emitted changes ends up believing the status the detector
   * records, which is the latest observation.
   */
  lemma {:induction false} ListenerStaysInSync(last: Option<bool>, observed: seq<bool>)
    ensures Heard(last, Emissions(last, observed)) == Recorded(last, observed)
    decreases |observed|
  {
    if observed != [] {
      ListenerStaysInSync(last, observed[..|observed| - 1]);
    }
  }

  /**
   * The emitted values never repeat one after the other, and the first one
   * differs from what was recorded before.
   */
  lemma {:induction false} EmissionsAlternate(last: Option<bool>, observed: seq<bool>)
    ensures var e := Emissions(last, observed);
      (e != [] ==> Some(e[0]) != last) && forall i :: 0 < i < |e| ==> e[i] != e[i - 1]
    decreases |observed|
  {
    if observed != [] {
      var earlier := observed[..|observed| - 1];
      EmissionsAlternate(last, earlier);
      ListenerStaysInSync(last, earlier);
    }
  }

  /** Observing the status already recorded, any number of times, emits nothing. */
  lemma {:induction false} RepeatsAreSilent(b: bool, observed: seq<bool>)
    requires forall i :: 0 <= i < |observed| ==> observed[i] == b
    ensures Emissions(Some(b), observed) == []
    decreases |observed|
  {
    if observed != [] {
      RepeatsAreSilent(b, observed[..|observed| - 1]);
    }
  }

  /** Observing one more status adds an emission exactly when it differs from the recorded one. */
  lemma EmissionsExtend(last: Option<bool>, observed: seq<bool>, b: bool)
    ensures Emissions(last, observed + [b])
      == Emissions(last, observed) + (if Some(b) != Recorded(last, observed) then [b] else [])
  {
    assert (observed + [b])[..|observed|] == observed;
  }

  /** The result of one pass of the detection loop. */
  datatype Round = Halted | Checked(observed: bool, emitted: Option<bool>)

  class ProcessDetector {
    const processName: string
    var running: bool
    /** How many detection threads have been started. */
    var threadsStarted: nat
    var lastStatus: Option<bool>

    constructor (processName: string)
      ensures this.processName == processName && !running && threadsStarted == 0 && lastStatus.None?
    {
      this.processName := processName;
      running := false;
      threadsStarted := 0;
      lastStatus := None;
    }

    /** `start`: a detector already running is left alone; no second thread is made. */
    method Start()
      modifies this
      ensures running
      ensures threadsStarted == if old(running) then old(threadsStarted) else old(threadsStarted) + 1
      ensures lastStatus == old(lastStatus)
    {
      if running {
        return;
      }
      running := true;
      threadsStarted := threadsStarted + 1;
    }

    /** `stop`: clears the flag the loop tests, so no further round runs. */
    method Stop()
      modifies this
      ensures !running
      ensures threadsStarted == old(threadsStarted) && lastStatus == old(lastStatus)
    {
      running := false;
    }

    /**
     * One pass of `_detection_loop`: if still running, check the process
     * table and emit the result exactly when it differs from the recorded
     * status, which then becomes the result.
     */
    method DetectionRound(table: ProcessTable) returns (round: Round)
      modifies this
      ensures !old(running) ==> round == Halted && lastStatus == old(lastStatus)
      ensures old(running) ==> round.Checked? && (round.observed <==> Listed(table, processName))
      ensures round.Checked? ==>
        && lastStatus == Some(round.observed)
        && round.emitted == (if Some(round.observed) != old(lastStatus) then Some(round.observed) else None)
      ensures running == old(running) && threadsStarted == old(threadsStarted)
    {
      if !running {
        return Halted;
      }
      var isRunning := CheckProcessRunning(table, processName);
      var emitted := None;
      if Some(isRunning) != lastStatus {
        lastStatus := Some(isRunning);
        emitted := Some(isRunning);
      }
      return Checked(isRunning, emitted);
    }

    /**
     * The loop run over successive process tables while the detector stays
     * running: it emits exactly `Emissions` of the observed statuses and
     * records the latest one.
     */
    method DetectionLoop(tables: seq<ProcessTable>) returns (observed: seq<bool>, emitted: seq<bool>)
      requires running
      modifies this
      ensures |observed| == |tables|
      ensures forall i :: 0 <= i < |tables| ==> (observed[i] <==> Listed(tables[i], processName))
      ensures emitted == Emissions(old(lastStatus), observed)
      ensures lastStatus == Recorded(old(lastStatus), observed)
      ensures running && threadsStarted == old(threadsStarted)
    {
      observed, emitted := [], [];
      var k := 0;
      while k < |tables|
        invariant 0 <= k <= |tables| && |observed| == k
        invariant running && threadsStarted == old(threadsStarted)
        invariant forall i :: 0 <= i < k ==> (observed[i] <==> Listed(tables[i], processName))
        invariant emitted == Emissions(old(lastStatus), observed)
        invariant lastStatus == Recorded(old(lastStatus), observed)
      {
        var round := DetectionRound(tables[k]);
        EmissionsExtend(old(lastStatus), observed, round.observed);
        observed := observed + [round.observed];
        if round.emitted.Some? {
          emitted := emitted + [round.emitted.value];
        }
        k := k + 1;
      }
    }
  }
}
