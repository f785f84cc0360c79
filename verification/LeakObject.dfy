/** leak_tracker.c and leak_detection.c in their own form: trackers and service updated in place. */
module LeakObject {
  import opened Bits
  import opened StorageRecord
  import opened LeakTracker
  import Spec = LeakDetection
  import opened LeakDetection

  class EvidenceTracker {
    var phase: Phase
    var suspendedFrom: Phase
    var entryStart: uint64
    var activeSince: uint64
    var clearStart: uint64
    var lastUsable: uint64
    var activations: nat

    ghost function View(): Tracker
      reads this
    {
      Tracker(phase, suspendedFrom, entryStart, activeSince, clearStart, lastUsable, activations)
    }

    constructor ()
      ensures View() == FRESH
    {
      phase, suspendedFrom, entryStart, activeSince, clearStart := Inactive, Inactive, 0, 0, 0;
      lastUsable, activations := 0, 0;
    }

    /** LeakTracker_Init. */
    method Init()
      modifies this
      ensures View() == FRESH
    {
      phase, suspendedFrom, entryStart, activeSince, clearStart := Inactive, Inactive, 0, 0, 0;
      lastUsable, activations := 0, 0;
    }

    /** LeakTracker_Evaluate without usable data. */
    method Lose(now: uint64, gap: uint64)
      modifies this
      ensures View() == Lost(old(View()), now, gap)
    {
      if phase == Inactive {
        return;
      }
      if phase != Suspended {
        suspendedFrom := phase;
        phase := Suspended;
      }
      if lastUsable > 0 && Since(now, lastUsable) > gap {
        if activations == 0 {
          Init();
        }
      }
    }

    /** LeakTracker_Evaluate. */
    method Evaluate(s: Sample, d: Durations)
      modifies this
      ensures View() == LeakTracker.Evaluate(old(View()), s, d)
    {
      if !s.usable {
        Lose(s.now, d.gap);
        return;
      }
      lastUsable := s.now;
      if phase == Suspended {
        phase := suspendedFrom;
        suspendedFrom := Inactive;
      }
      if phase == Inactive {
        if s.entry {
          entryStart := s.now;
          phase := Pending;
        }
      } else if phase == Pending {
        if !s.entry {
          if s.clear {
            clearStart := s.now;
            phase := ClearPending;
          } else {
            Init();
          }
        } else if Since(s.now, entryStart) >= d.entry {
          activeSince := s.now;
          activations := activations + 1;
          phase := Active;
        }
      } else if phase == Active {
        if s.clear {
          clearStart := s.now;
          phase := ClearPending;
        }
      } else if phase == ClearPending {
        if s.entry || !s.clear {
          phase := Active;
        } else if Since(s.now, clearStart) >= d.clear {
          Init();
        }
      }
    }
  }

  /** The fields of LeakDetectionService that are not trackers. */
  datatype Status = Status(
    cfg: LeakConfig, state: LeakState, evalStatus: EvalStatus, reason: Reason, severity: Severity, stateVersion: nat,
    changeSequence: nat, stateEnteredUs: uint64, generation: uint32, lastFlowSequence: uint64, lastEvalUs: uint64,
    evaluations: nat)

  class DetectionService {
    var status: Status
    const continuous: EvidenceTracker
    const burst: EvidenceTracker
    const lowPressure: EvidenceTracker
    const highPressure: EvidenceTracker

    ghost const Repr: set<object> := {this, continuous, burst, lowPressure, highPressure}

    ghost predicate Valid() {
      && continuous != burst && continuous != lowPressure && continuous != highPressure
      && burst != lowPressure && burst != highPressure && lowPressure != highPressure
    }

    ghost function View(): Detection
      reads Repr
    {
      var s := status;
      Detection(s.cfg, s.state, s.evalStatus, s.reason, s.severity, s.stateVersion, s.changeSequence, s.stateEnteredUs,
                s.generation, s.lastFlowSequence, s.lastEvalUs, s.evaluations,
                continuous.View(), burst.View(), lowPressure.View(), highPressure.View())
    }

    /** LeakDetection_Init. */
    constructor (c: LeakConfig, now: uint64)
      ensures Valid() && fresh(Repr) && View() == InitialDetection(c, now)
    {
      status := Status(c, Normal, EvalNotReady, NoReason, NoSeverity, 1, 0, now, 1, 0, now, 0);
      continuous := new EvidenceTracker();
      burst := new EvidenceTracker();
      lowPressure := new EvidenceTracker();
      highPressure := new EvidenceTracker();
    }

    method Enter(state: LeakState, reason: Reason, severity: Severity, now: uint64)
      modifies this
      ensures View() == Entered(old(View()), state, reason, severity, now)
    {
      status := status.(state := state, reason := reason, severity := severity,
                        changeSequence := status.changeSequence + 1, stateEnteredUs := now);
    }

    /** The transitions of build_result, one after the other. */
    method Transit(now: uint64)
      modifies this
      ensures View() == FromConfirmed(FromSuspected(FromNormal(old(View()), now), now), now)
    {
      if status.state == Normal {
        if burst.phase == Active {
          Enter(Confirmed, HighFlowBurst, High, now);
        } else if continuous.phase == Active {
          Enter(Suspected, ContinuousFlow, Low, now);
        }
      }
      assert View() == FromNormal(old(View()), now);
      label first:
      if status.state == Suspected {
        if burst.phase == Active {
          Enter(Confirmed, HighFlowBurst, High, now);
        } else if continuous.phase == Active {
          if continuous.activeSince > 0 && Since(now, continuous.activeSince) >= status.cfg.continuousConfirmUs {
            Enter(Confirmed, status.reason, Medium, now);
          }
        } else if continuous.phase == Inactive {
          Enter(Normal, NoReason, NoSeverity, now);
        }
      }
      assert View() == FromSuspected(old@first(View()), now);
      label second:
      if status.state == Confirmed {
        if continuous.phase == Inactive && burst.phase == Inactive {
          Enter(Normal, NoReason, NoSeverity, now);
        }
      }
      assert View() == FromConfirmed(old@second(View()), now);
    }

    /** build_result. */
    method BuildResult(x: Input)
      modifies this
      ensures View() == Built(old(View()), x)
    {
      hide FromNormal, FromSuspected, FromConfirmed;
      status := status.(lastEvalUs := x.now);
      ghost var before := View();
      Transit(x.now);
      LastEvalIsFree(old(View()), x.now);
      var evalStatus :=
        if status.stateVersion == 1 && status.evaluations == 0 then EvalNotReady
        else if !x.flowUsable then EvalUnavailable
        else if !x.pressureUsable && status.cfg.pressureAssist then EvalDegraded
        else EvalActive;
      status := status.(evalStatus := evalStatus, stateVersion := status.stateVersion + 1);
    }

    /** LeakDetection_Evaluate. */
    method Evaluate(x: Input) returns (update: UpdateStatus)
      requires Valid()
      modifies Repr
      ensures (View(), update) == Spec.Evaluate(old(View()), x)
    {
      hide Built, LeakTracker.Evaluate, ContinuousSample, BurstSample, LowSample, HighSample;
      status := status.(evaluations := status.evaluations + 1);
      if x.sequence > 0 && x.sequence == status.lastFlowSequence && x.generation == status.generation {
        return RejectedDuplicate;
      }
      ghost var counted := View();
      if x.sequence > 0 {
        status := status.(lastFlowSequence := x.sequence);
      }
      continuous.Evaluate(ContinuousSample(status.cfg, x), ContinuousDurations(status.cfg));
      burst.Evaluate(BurstSample(status.cfg, x), BurstDurations(status.cfg));
      lowPressure.Evaluate(LowSample(status.cfg, x), PressureDurations(status.cfg));
      highPressure.Evaluate(HighSample(status.cfg, x), PressureDurations(status.cfg));
      assert View() == Tracked(counted, x);
      BuildResult(x);
      return ResultChanged;
    }

    /** LeakDetection_ApplyConfig. */
    method ApplyConfig(c: LeakConfig, now: uint64) returns (ok: bool)
      requires Valid()
      modifies Repr
      ensures (View(), ok) == Spec.ApplyConfig(old(View()), c, now)
    {
      if !ConfigIsValid(c) {
        return false;
      }
      status := status.(cfg := c);
      if status.state != Confirmed {
        continuous.Init();
        burst.Init();
      }
      lowPressure.Init();
      highPressure.Init();
      status := status.(lastEvalUs := now);
      return true;
    }
  }

  /** The transitions do not look at the time of the last evaluation. */
  lemma LastEvalIsFree(s: Detection, now: uint64)
    ensures FromConfirmed(FromSuspected(FromNormal(s.(lastEvalUs := now), now), now), now)
         == FromConfirmed(FromSuspected(FromNormal(s, now), now), now).(lastEvalUs := now)
    ensures var t := FromConfirmed(FromSuspected(FromNormal(s, now), now), now);
      t.stateVersion == s.stateVersion && t.evaluations == s.evaluations && t.cfg == s.cfg
  {
    var a := FromNormal(s, now);
    var b := FromSuspected(a, now);
    NormalIsFree(s, now);
    SuspectedIsFree(a, now);
    ConfirmedIsFree(b, now);
    hide *;
  }

  lemma NormalIsFree(s: Detection, now: uint64)
    ensures FromNormal(s.(lastEvalUs := now), now) == FromNormal(s, now).(lastEvalUs := now)
    ensures var t := FromNormal(s, now); t.stateVersion == s.stateVersion && t.evaluations == s.evaluations && t.cfg == s.cfg
  {
  }

  lemma SuspectedIsFree(s: Detection, now: uint64)
    ensures FromSuspected(s.(lastEvalUs := now), now) == FromSuspected(s, now).(lastEvalUs := now)
    ensures var t := FromSuspected(s, now); t.stateVersion == s.stateVersion && t.evaluations == s.evaluations && t.cfg == s.cfg
  {
  }

  lemma ConfirmedIsFree(s: Detection, now: uint64)
    ensures FromConfirmed(s.(lastEvalUs := now), now) == FromConfirmed(s, now).(lastEvalUs := now)
    ensures var t := FromConfirmed(s, now); t.stateVersion == s.stateVersion && t.evaluations == s.evaluations && t.cfg == s.cfg
  {
  }
}
