/**
 * The state behind the overlay window: the WAITING/ON/OFF status rule, the
 * enabled and locked flags with their toggles, the clamped health values, the
 * bounded newest-first potion log, and the lock check on dragging.
 *
 * Qt itself (labels, styles, window flags) is not modelled; the window's
 * position and the drag anchor are plain integer fields, and the saved
 * overlay settings are an object the window writes through.
 */
module Overlay {
  import opened Wrappers
  import opened FloatBits

  /** What the status label shows. */
  datatype Status = Waiting | On | Off

  /**
   * The status rule: WAITING while the game is not running, whatever the
   * enabled flag says; otherwise ON when enabled and OFF when not.
   */
  function StatusOf(processRunning: bool, enabled: bool): (s: Status)
    ensures s == Waiting <==> !processRunning
    ensures s == On <==> processRunning && enabled
    ensures s == Off <==> processRunning && !enabled
  {
    if !processRunning then Waiting else if enabled then On else Off
  }

  /** How many potion-log entries the overlay keeps. */
  const LOG_CAPACITY := 3

  /**
   * One potion-log entry. `timestamp` is the wall-clock reading taken when
   * the entry is made; `healthAmount` is the health already truncated to an
   * integer; `percentage` is kept as the bit pattern of the float.
   */
  datatype LogEntry = LogEntry(timestamp: int, healthAmount: int, percentage: Double)

  /**
   * The log after inserting `e` at the front and cutting it back to
   * `LOG_CAPACITY` entries: `e` comes first, every earlier entry moves down
   * one place, and only the oldest one falls off when the log was full.
   */
  function PushNewest(log: seq<LogEntry>, e: LogEntry): (r: seq<LogEntry>)
    ensures |r| == if |log| < LOG_CAPACITY then |log| + 1 else LOG_CAPACITY
    ensures r[0] == e
    ensures forall i :: 1 <= i < |r| ==> r[i] == log[i - 1]
  {
    var inserted := [e] + log;
    if |inserted| > LOG_CAPACITY then inserted[..LOG_CAPACITY] else inserted
  }

  /** The log that results from adding `entries` one by one to an empty log. */
  function Replay(entries: seq<LogEntry>): seq<LogEntry> {
    if entries == [] then [] else PushNewest(Replay(entries[..|entries| - 1]), entries[|entries| - 1])
  }

  /** The newest `LOG_CAPACITY` of `entries` (or all of them), newest first. */
  function Newest(entries: seq<LogEntry>): seq<LogEntry> {
    var n := if |entries| < LOG_CAPACITY then |entries| else LOG_CAPACITY;
    seq(n, i requires 0 <= i < n => entries[|entries| - 1 - i])
  }

  /**
   * Whatever entries were added, the log holds exactly the three most recent
   * ones, most recent first.
   */
  lemma {:induction false} ReplayKeepsNewest(entries: seq<LogEntry>)
    ensures Replay(entries) == Newest(entries)
  {
    if entries != [] {
      var earlier := entries[..|entries| - 1];
      ReplayKeepsNewest(earlier);
      var r := Replay(entries);
      assert |r| == |Newest(entries)|;
      forall i | 0 <= i < |r|
        ensures r[i] == Newest(entries)[i]
      {
        if i > 0 {
          assert r[i] == Newest(earlier)[i - 1];
        }
      }
    }
  }

  /**
   * `set_current_health`: a negative reading (or a NaN, which is not `>= 0`)
   * is shown as 0.
   */
  function ClampCurrent(h: Double): (r: Double)
    ensures IsNonNegative(r)
    ensures IsNonNegative(h) ==> r == h
    ensures !IsNonNegative(h) ==> r == PositiveZero
  {
    if IsNonNegative(h) then h else PositiveZero
  }

  /** `set_max_health`: anything that is not `> 0` is stored as 0. */
  function ClampMax(h: Double): (r: Double)
    ensures IsPositive(r) <==> IsPositive(h)
    ensures IsPositive(h) ==> r == h
    ensures !IsPositive(h) ==> r == PositiveZero
  {
    if IsPositive(h) then h else PositiveZero
  }

  /** The health label shows numbers only for a positive maximum and a non-negative current value. */
  predicate HealthShown(current: Double, maximum: Double) {
    IsPositive(maximum) && IsNonNegative(current)
  }

  /**
   * Since the current value is clamped on the way in, whether the health
   * label shows numbers depends on the maximum alone.
   */
  lemma ShownExactlyWithPositiveMax(current: Double, maximum: Double)
    ensures HealthShown(ClampCurrent(current), ClampMax(maximum)) <==> IsPositive(maximum)
  {
  }

  /** The mouse buttons an event can name. */
  datatype MouseButton = LeftButton | RightButton | MiddleButton

  /** The overlay's saved settings: lock flag and position. */
  class OverlaySettings {
    var locked: bool
    var posX: int
    var posY: int

    constructor (locked: bool, posX: int, posY: int)
      ensures this.locked == locked && this.posX == posX && this.posY == posY
    {
      this.locked := locked;
      this.posX := posX;
      this.posY := posY;
    }

    /** `set_overlay_locked`: records the flag. */
    method SetOverlayLocked(locked: bool)
      modifies this
      ensures this.locked == locked && posX == old(posX) && posY == old(posY)
    {
      this.locked := locked;
    }

    /** `set_overlay_pos`: records the position. */
    method SetOverlayPos(x: int, y: int)
      modifies this
      ensures posX == x && posY == y && locked == old(locked)
    {
      posX := x;
      posY := y;
    }
  }

  class OverlayWindow {
    const config: OverlaySettings
    var enabledState: bool
    var lockedState: bool
    var processRunning: bool
    var potionLog: seq<LogEntry>
    var currentHealth: Double
    var maxHealth: Double
    var posX: int
    var posY: int
    /** The drag anchor; `None` while the attribute is absent. */
    var dragPosition: Option<(int, int)>

    /**
     * What every public method keeps: the log is bounded, the health values
     * are clamped, and the lock flag and position agree with the saved
     * settings.
     */
    ghost predicate Valid()
      reads this, config
    {
      && |potionLog| <= LOG_CAPACITY
      && IsNonNegative(currentHealth)
      && (IsPositive(maxHealth) || maxHealth == PositiveZero)
      && lockedState == config.locked
      && posX == config.posX && posY == config.posY
    }

    /** The status the label shows. */
    function Status(): Status
      reads this
    {
      StatusOf(processRunning, enabledState)
    }

    /** Starts enabled, not running, with an empty log, at the saved position and lock state. */
    constructor (config: OverlaySettings)
      ensures Valid()
      ensures this.config == config && enabledState && !processRunning && Status() == Waiting
      ensures lockedState == config.locked && posX == config.posX && posY == config.posY
      ensures potionLog == [] && currentHealth == PositiveZero && maxHealth == PositiveZero
      ensures dragPosition.None?
    {
      this.config := config;
      enabledState := true;
      lockedState := config.locked;
      processRunning := false;
      potionLog := [];
      currentHealth := PositiveZero;
      maxHealth := PositiveZero;
      posX := config.posX;
      posY := config.posY;
      dragPosition := None;
    }

    /** `set_enabled_state`. */
    method SetEnabledState(enabled: bool)
      requires Valid()
      modifies this
      ensures Valid()
      ensures enabledState == enabled && Status() == StatusOf(processRunning, enabled)
      ensures processRunning == old(processRunning) && lockedState == old(lockedState)
      ensures potionLog == old(potionLog) && currentHealth == old(currentHealth) && maxHealth == old(maxHealth)
      ensures posX == old(posX) && posY == old(posY) && dragPosition == old(dragPosition)
    {
      enabledState := enabled;
    }

    /** `set_process_running`. */
    method SetProcessRunning(running: bool)
      requires Valid()
      modifies this
      ensures Valid()
      ensures processRunning == running && Status() == StatusOf(running, enabledState)
      ensures enabledState == old(enabledState) && lockedState == old(lockedState)
      ensures potionLog == old(potionLog) && currentHealth == old(currentHealth) && maxHealth == old(maxHealth)
      ensures posX == old(posX) && posY == old(posY) && dragPosition == old(dragPosition)
    {
      processRunning := running;
    }

    /** `set_locked_state`: stores the flag and writes the same value to the settings. */
    method SetLockedState(locked: bool)
      requires Valid()
      modifies this, config
      ensures Valid()
      ensures lockedState == locked && config.locked == locked
      ensures config.posX == old(config.posX) && config.posY == old(config.posY)
      ensures enabledState == old(enabledState) && processRunning == old(processRunning)
      ensures potionLog == old(potionLog) && currentHealth == old(currentHealth) && maxHealth == old(maxHealth)
      ensures posX == old(posX) && posY == old(posY) && dragPosition == old(dragPosition)
    {
      lockedState := locked;
      config.SetOverlayLocked(locked);
    }

    /** `toggle_enabled`: negates the flag, so two toggles restore it. */
    method ToggleEnabled()
      requires Valid()
      modifies this
      ensures Valid()
      ensures enabledState == !old(enabledState)
      ensures processRunning == old(processRunning) && lockedState == old(lockedState)
      ensures potionLog == old(potionLog) && currentHealth == old(currentHealth) && maxHealth == old(maxHealth)
      ensures posX == old(posX) && posY == old(posY) && dragPosition == old(dragPosition)
    {
      SetEnabledState(!enabledState);
    }

    /** `toggle_locked`: negates the flag and saves it, so two toggles restore both. */
    method ToggleLocked()
      requires Valid()
      modifies this, config
      ensures Valid()
      ensures lockedState == !old(lockedState) && config.locked == lockedState
      ensures config.posX == old(config.posX) && config.posY == old(config.posY)
      ensures enabledState == old(enabledState) && processRunning == old(processRunning)
      ensures potionLog == old(potionLog) && currentHealth == old(currentHealth) && maxHealth == old(maxHealth)
      ensures posX == old(posX) && posY == old(posY) && dragPosition == old(dragPosition)
    {
      SetLockedState(!lockedState);
    }

    /** `set_current_health`. */
    method SetCurrentHealth(health: Double)
      requires Valid()
      modifies this
      ensures Valid()
      ensures currentHealth == ClampCurrent(health)
      ensures HealthShown(currentHealth, maxHealth) <==> IsPositive(maxHealth)
      ensures enabledState == old(enabledState) && processRunning == old(processRunning) && lockedState == old(lockedState)
      ensures potionLog == old(potionLog) && maxHealth == old(maxHealth)
      ensures posX == old(posX) && posY == old(posY) && dragPosition == old(dragPosition)
    {
      currentHealth := ClampCurrent(health);
    }

    /** `set_max_health`. */
    method SetMaxHealth(health: Double)
      requires Valid()
      modifies this
      ensures Valid()
      ensures maxHealth == ClampMax(health)
      ensures HealthShown(currentHealth, maxHealth) <==> IsPositive(health)
      ensures enabledState == old(enabledState) && processRunning == old(processRunning) && lockedState == old(lockedState)
      ensures potionLog == old(potionLog) && currentHealth == old(currentHealth)
      ensures posX == old(posX) && posY == old(posY) && dragPosition == old(dragPosition)
    {
      maxHealth := ClampMax(health);
    }

    /**
     * `add_potion_log_entry`: inserts at the front, then cuts the list back
     * to three entries. `now` is the clock reading; `healthAmount` is
     * `int(health_amount)`.
     */
    method AddPotionLogEntry(now: int, healthAmount: int, percentage: Double)
      requires Valid()
      modifies this
      ensures Valid()
      ensures potionLog == PushNewest(old(potionLog), LogEntry(now, healthAmount, percentage))
      ensures enabledState == old(enabledState) && processRunning == old(processRunning) && lockedState == old(lockedState)
      ensures currentHealth == old(currentHealth) && maxHealth == old(maxHealth)
      ensures posX == old(posX) && posY == old(posY) && dragPosition == old(dragPosition)
    {
      var entry := LogEntry(now, healthAmount, percentage);
      potionLog := [entry] + potionLog;
      if |potionLog| > LOG_CAPACITY {
        potionLog := potionLog[..LOG_CAPACITY];
      }
    }

    /**
     * `mousePressEvent`: a left press on an unlocked overlay records where in
     * the window it was grabbed. Returns whether the event was accepted.
     */
    method MousePress(button: MouseButton, globalX: int, globalY: int) returns (accepted: bool)
      requires Valid()
      modifies this
      ensures Valid()
      ensures accepted <==> button == LeftButton && !lockedState
      ensures accepted ==> dragPosition == Some((globalX - posX, globalY - posY))
      ensures !accepted ==> dragPosition == old(dragPosition)
      ensures enabledState == old(enabledState) && processRunning == old(processRunning) && lockedState == old(lockedState)
      ensures potionLog == old(potionLog) && currentHealth == old(currentHealth) && maxHealth == old(maxHealth)
      ensures posX == old(posX) && posY == old(posY)
    {
      accepted := button == LeftButton && !lockedState;
      if accepted {
        dragPosition := Some((globalX - posX, globalY - posY));
      }
    }

    /**
     * `mouseMoveEvent`: with exactly the left button held, an unlocked
     * overlay that has a drag anchor moves so the anchor stays under the
     * pointer, and the new position is saved. A locked overlay never moves.
     */
    method MouseMove(buttons: set<MouseButton>, globalX: int, globalY: int) returns (accepted: bool)
      requires Valid()
      modifies this, config
      ensures Valid()
      ensures accepted <==> buttons == {LeftButton} && !lockedState && dragPosition.Some?
      ensures accepted ==> posX == globalX - dragPosition.value.0 && posY == globalY - dragPosition.value.1
      ensures !accepted ==> posX == old(posX) && posY == old(posY)
      ensures config.locked == old(config.locked)
      ensures enabledState == old(enabledState) && processRunning == old(processRunning) && lockedState == old(lockedState)
      ensures potionLog == old(potionLog) && currentHealth == old(currentHealth) && maxHealth == old(maxHealth)
      ensures dragPosition == old(dragPosition)
    {
      accepted := false;
      if buttons == {LeftButton} && !lockedState {
        if dragPosition.Some? {
          var newX := globalX - dragPosition.value.0;
          var newY := globalY - dragPosition.value.1;
          posX, posY := newX, newY;
          config.SetOverlayPos(newX, newY);
          accepted := true;
        }
      }
    }

    /** `mouseReleaseEvent`: drops the drag anchor, locked or not. */
    method MouseRelease()
      requires Valid()
      modifies this
      ensures Valid()
      ensures dragPosition.None?
      ensures enabledState == old(enabledState) && processRunning == old(processRunning) && lockedState == old(lockedState)
      ensures potionLog == old(potionLog) && currentHealth == old(currentHealth) && maxHealth == old(maxHealth)
      ensures posX == old(posX) && posY == old(posY)
    {
      dragPosition := None;
    }
  }
}
