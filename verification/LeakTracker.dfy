/** The timed evidence machine of leak_tracker.c. */
module LeakTracker {
  import opened Bits
  import opened StorageRecord

  datatype Phase = Inactive | Pending | Active | ClearPending | Suspended

  datatype Tracker = Tracker(
    phase: Phase, suspendedFrom: Phase, entryStart: uint64, activeSince: uint64, clearStart: uint64,
    lastUsable: uint64, activations: nat)

  /** LeakTracker_Init. */
  const FRESH := Tracker(Inactive, Inactive, 0, 0, 0, 0, 0)

  datatype Sample = Sample(now: uint64, entry: bool, clear: bool, usable: bool)

  datatype Durations = Durations(entry: uint64, clear: uint64, gap: uint64)

  /** The difference of two 64-bit times, which wraps when time runs backwards. */
  function Since(now: uint64, start: uint64): nat {
    (now - start) % 0x1_0000_0000_0000_0000
  }

  /** A sample without usable data suspends; a gap too long forgets evidence that never activated. */
  function Lost(t: Tracker, now: uint64, gap: uint64): Tracker {
    if t.phase == Inactive then t
    else
      var s := if t.phase == Suspended then t else t.(suspendedFrom := t.phase, phase := Suspended);
      if s.lastUsable > 0 && Since(now, s.lastUsable) > gap && s.activations == 0 then FRESH else s
  }

  /** A usable sample resumes the suspended phase. */
  function Resumed(t: Tracker, now: uint64): Tracker {
    var s := t.(lastUsable := now);
    if s.phase == Suspended then s.(phase := s.suspendedFrom, suspendedFrom := Inactive) else s
  }

  function Advanced(t: Tracker, s: Sample, d: Durations): Tracker {
    match t.phase
    case Inactive => if s.entry then t.(entryStart := s.now, phase := Pending) else t
    case Pending =>
      if !s.entry then (if s.clear then t.(clearStart := s.now, phase := ClearPending) else FRESH)
      else if Since(s.now, t.entryStart) >= d.entry then
        t.(activeSince := s.now, activations := t.activations + 1, phase := Active)
      else t
    case Active => if s.clear then t.(clearStart := s.now, phase := ClearPending) else t
    case ClearPending =>
      if s.entry || !s.clear then t.(phase := Active)
      else if Since(s.now, t.clearStart) >= d.clear then FRESH
      else t
    case Suspended => t
  }

  /** LeakTracker_Evaluate. */
  function Evaluate(t: Tracker, s: Sample, d: Durations): Tracker {
    if s.usable then Advanced(Resumed(t, s.now), s, d) else Lost(t, s.now, d.gap)
  }

  // ---------- Evidence ----------

  /** The phase, looking through a suspension. */
  function Underlying(t: Tracker): Phase {
    if t.phase == Suspended then t.suspendedFrom else t.phase
  }

  predicate Ordered(h: seq<Sample>) {
    forall i, j :: 0 <= i < j < |h| ==> h[i].now <= h[j].now
  }

  /** From the usable sample i at time start on, up to j, every usable sample meets the entry condition. */
  predicate EntryHeld(h: seq<Sample>, i: int, j: int, start: uint64) {
    0 <= i <= j < |h| && h[i].usable && h[i].now == start && forall k :: i <= k <= j && h[k].usable ==> h[k].entry
  }

  /** From the usable sample i at time start on, up to j, every usable sample meets the clear condition, and none after i
      the entry condition. */
  predicate ClearHeld(h: seq<Sample>, i: int, j: int, start: uint64) {
    0 <= i <= j < |h| && h[i].usable && h[i].now == start
    && forall k :: i <= k <= j && h[k].usable ==> h[k].clear && (k > i ==> !h[k].entry)
  }

  /** Entry was sustained: from i to j, over at least the entry duration, ending in the activation. */
  ghost predicate Sustained(h: seq<Sample>, start: uint64, since: uint64, d: Durations) {
    exists i, j :: EntryHeld(h, i, j, start) && h[j].usable && h[j].now == since && since - start >= d.entry
  }

  predicate EntryFrom(h: seq<Sample>, i: int, start: uint64) {
    EntryHeld(h, i, |h| - 1, start)
  }

  predicate ClearFrom(h: seq<Sample>, i: int, start: uint64) {
    ClearHeld(h, i, |h| - 1, start)
  }

  ghost predicate EntryNow(h: seq<Sample>, start: uint64) {
    exists i :: EntryFrom(h, i, start)
  }

  ghost predicate ClearNow(h: seq<Sample>, start: uint64) {
    exists i :: ClearFrom(h, i, start)
  }

  /** What the tracker's fields say about the samples it has seen since it was last fresh or before. */
  ghost predicate Evidence(t: Tracker, h: seq<Sample>, d: Durations) {
    && (t.phase == Inactive ==> t.activations == 0 && t.activeSince == 0)
    && (t.phase == Suspended ==> t.suspendedFrom != Inactive && t.suspendedFrom != Suspended)
    && (t.activations == 0 <==> t.activeSince == 0)
    && (Underlying(t) == Pending ==> t.activations == 0 && EntryNow(h, t.entryStart))
    && (Underlying(t) == ClearPending ==> ClearNow(h, t.clearStart))
    && (t.activations > 0 ==> Sustained(h, t.entryStart, t.activeSince, d))
  }

  lemma EntryExtends(h: seq<Sample>, s: Sample, start: uint64)
    requires EntryNow(h, start) && (s.usable ==> s.entry)
    ensures EntryNow(h + [s], start)
  {
    var i :| EntryFrom(h, i, start);
    assert EntryFrom(h + [s], i, start);
  }

  lemma EntryBegins(h: seq<Sample>, s: Sample)
    requires s.usable && s.entry
    ensures EntryNow(h + [s], s.now)
  {
    assert EntryFrom(h + [s], |h|, s.now);
  }

  lemma ClearExtends(h: seq<Sample>, s: Sample, start: uint64)
    requires ClearNow(h, start) && (s.usable ==> s.clear && !s.entry)
    ensures ClearNow(h + [s], start)
  {
    var i :| ClearFrom(h, i, start);
    assert ClearFrom(h + [s], i, start);
  }

  lemma ClearBegins(h: seq<Sample>, s: Sample)
    requires s.usable && s.clear
    ensures ClearNow(h + [s], s.now)
  {
    assert ClearFrom(h + [s], |h|, s.now);
  }

  lemma SustainedStays(h: seq<Sample>, s: Sample, start: uint64, since: uint64, d: Durations)
    requires Sustained(h, start, since, d)
    ensures Sustained(h + [s], start, since, d)
  {
    var i, j :| EntryHeld(h, i, j, start) && h[j].usable && h[j].now == since && since - start >= d.entry;
    assert EntryHeld(h + [s], i, j, start) && (h + [s])[j] == h[j];
  }

  lemma SustainedBegins(h: seq<Sample>, s: Sample, start: uint64, d: Durations)
    requires EntryNow(h + [s], start) && s.usable && s.now - start >= d.entry
    ensures Sustained(h + [s], start, s.now, d)
  {
    var g := h + [s];
    var i :| EntryFrom(g, i, start);
    assert g[|h|] == s;
  }

  lemma EntryStartIsPast(h: seq<Sample>, start: uint64, s: Sample)
    requires EntryNow(h, start) && Ordered(h + [s])
    ensures start <= s.now && Since(s.now, start) == s.now - start
  {
    var i :| EntryFrom(h, i, start);
    assert (h + [s])[i] == h[i] && (h + [s])[|h|] == s;
  }

  lemma ClearStartIsPast(h: seq<Sample>, start: uint64, s: Sample)
    requires ClearNow(h, start) && Ordered(h + [s])
    ensures start <= s.now && Since(s.now, start) == s.now - start
  {
    var i :| ClearFrom(h, i, start);
    assert (h + [s])[i] == h[i] && (h + [s])[|h|] == s;
  }

  /** Each sample keeps the evidence true. */
  lemma EvaluateKeeps(t: Tracker, h: seq<Sample>, s: Sample, d: Durations)
    requires Evidence(t, h, d) && Ordered(h + [s]) && d.entry > 0
    ensures Evidence(Evaluate(t, s, d), h + [s], d)
  {
    if t.activations > 0 {
      SustainedStays(h, s, t.entryStart, t.activeSince, d);
    }
    if Underlying(t) == Pending {
      EntryStartIsPast(h, t.entryStart, s);
      if !s.usable || s.entry {
        EntryExtends(h, s, t.entryStart);
        if s.usable && s.now - t.entryStart >= d.entry {
          SustainedBegins(h, s, t.entryStart, d);
        }
      }
    }
    if Underlying(t) == ClearPending {
      ClearStartIsPast(h, t.clearStart, s);
      if !s.usable || (s.clear && !s.entry) {
        ClearExtends(h, s, t.clearStart);
      }
    }
    if s.usable && s.entry {
      EntryBegins(h, s);
    }
    if s.usable && s.clear {
      ClearBegins(h, s);
    }
    hide EntryNow, ClearNow, Sustained, Since;
  }

  function EvaluateAll(t: Tracker, h: seq<Sample>, d: Durations): Tracker
    decreases |h|
  {
    if h == [] then t else Evaluate(EvaluateAll(t, h[..|h| - 1], d), h[|h| - 1], d)
  }

  lemma {:induction false} EvidenceHolds(h: seq<Sample>, d: Durations)
    requires Ordered(h) && d.entry > 0
    ensures Evidence(EvaluateAll(FRESH, h, d), h, d)
    decreases |h|
  {
    if h != [] {
      var front, s := h[..|h| - 1], h[|h| - 1];
      assert h == front + [s];
      EvidenceHolds(front, d);
      EvaluateKeeps(EvaluateAll(FRESH, front, d), front, s, d);
    }
  }

  // ---------- What an observer may conclude ----------

  /** Over any samples: a tracker that counts an activation has seen entry at every usable sample from its start to the
      activation, for at least the entry duration. */
  lemma ActivationIsGenuine(h: seq<Sample>, d: Durations)
    requires Ordered(h) && d.entry > 0 && EvaluateAll(FRESH, h, d).activations > 0
    ensures var t := EvaluateAll(FRESH, h, d); t.activeSince > 0 && Sustained(h, t.entryStart, t.activeSince, d)
  {
    EvidenceHolds(h, d);
  }

  // ---------- Durations that change from sample to sample ----------

  /** Each sample under the durations configured when it came. */
  function EvaluateEach(t: Tracker, h: seq<Sample>, ds: seq<Durations>): Tracker
    requires |ds| == |h|
    decreases |h|
  {
    if h == [] then t
    else
      var n := |h| - 1;
      Evaluate(EvaluateEach(t, h[..n], ds[..n]), h[n], ds[n])
  }

  /** The part of the evidence that does not depend on durations. */
  ghost predicate ClearEvidence(t: Tracker, h: seq<Sample>) {
    && (t.phase == Inactive ==> t.activations == 0)
    && (t.phase == Suspended ==> t.suspendedFrom != Inactive && t.suspendedFrom != Suspended)
    && (Underlying(t) == Pending ==> t.activations == 0)
    && (Underlying(t) == ClearPending ==> ClearNow(h, t.clearStart))
  }

  lemma ClearEvidenceKeeps(t: Tracker, h: seq<Sample>, s: Sample, d: Durations)
    requires ClearEvidence(t, h)
    ensures ClearEvidence(Evaluate(t, s, d), h + [s])
  {
    if Underlying(t) == ClearPending && (!s.usable || (s.clear && !s.entry)) {
      ClearExtends(h, s, t.clearStart);
    }
    if s.usable && s.clear {
      ClearBegins(h, s);
    }
    hide ClearNow, Since;
  }

  lemma {:induction false} ClearEvidenceHolds(h: seq<Sample>, ds: seq<Durations>)
    requires |ds| == |h|
    ensures ClearEvidence(EvaluateEach(FRESH, h, ds), h)
    decreases |h|
  {
    if h != [] {
      var n := |h| - 1;
      assert h == h[..n] + [h[n]];
      ClearEvidenceHolds(h[..n], ds[..n]);
      ClearEvidenceKeeps(EvaluateEach(FRESH, h[..n], ds[..n]), h[..n], h[n], ds[n]);
    }
  }

  /** A tracker that counts an activation becomes inactive only at a usable sample, after the clear condition, and not
      the entry condition, held at every usable sample for the clear duration of that moment. Lost data alone never clears
      it, whatever happened to the durations before. */
  lemma ClearingIsEarned(h: seq<Sample>, ds: seq<Durations>, s: Sample, d: Durations) returns (i: nat)
    requires Ordered(h + [s]) && |ds| == |h|
    requires var t := EvaluateEach(FRESH, h, ds); t.activations > 0 && Evaluate(t, s, d).phase == Inactive
    ensures s.usable && i < |h| && ClearHeld(h + [s], i, |h|, h[i].now) && s.now - h[i].now >= d.clear
  {
    var t := EvaluateEach(FRESH, h, ds);
    ClearEvidenceHolds(h, ds);
    ClearStartIsPast(h, t.clearStart, s);
    i :| 0 <= i && ClearFrom(h, i, t.clearStart);
    assert ClearHeld(h + [s], i, |h|, h[i].now);
  }

  // ---------- Two ways to be active ----------

  predicate IsUp(t: Tracker) {
    Underlying(t) == Active || Underlying(t) == ClearPending
  }

  /** The tracker after the first j samples. */
  function After(h: seq<Sample>, ds: seq<Durations>, j: nat): Tracker
    requires |ds| == |h| && j <= |h|
  {
    EvaluateEach(FRESH, h[..j], ds[..j])
  }

  /** Sample i ends a pending phase by activation. */
  predicate Activates(h: seq<Sample>, ds: seq<Durations>, i: nat)
    requires |ds| == |h| && i < |h|
  {
    var t := After(h, ds, i);
    Underlying(t) == Pending && h[i].usable && h[i].entry && Since(h[i].now, t.entryStart) >= ds[i].entry
  }

  /** Sample i ends a pending phase because the clear condition holds, and the entry condition does not. */
  predicate Bypasses(h: seq<Sample>, ds: seq<Durations>, i: nat)
    requires |ds| == |h| && i < |h|
  {
    Underlying(After(h, ds, i)) == Pending && h[i].usable && h[i].clear && !h[i].entry
  }

  /** The tracker has not been fresh again since sample i. */
  predicate NotFreshSince(h: seq<Sample>, ds: seq<Durations>, i: nat)
    requires |ds| == |h| && i < |h|
  {
    forall j :: i < j <= |h| ==> After(h, ds, j).phase != Inactive
  }

  lemma AfterPrefix(h: seq<Sample>, ds: seq<Durations>, n: nat, j: nat)
    requires |ds| == |h| && j <= n <= |h|
    ensures After(h[..n], ds[..n], j) == After(h, ds, j)
  {
    assert h[..n][..j] == h[..j] && ds[..n][..j] == ds[..j];
  }

  lemma AfterAll(h: seq<Sample>, ds: seq<Durations>)
    requires |ds| == |h|
    ensures After(h, ds, |h|) == EvaluateEach(FRESH, h, ds)
  {
    assert h[..|h|] == h && ds[..|h|] == ds;
  }

  lemma NotFreshExtends(h: seq<Sample>, ds: seq<Durations>, i: nat)
    requires |ds| == |h| && i < |h| - 1
    ensures var n := |h| - 1;
      NotFreshSince(h, ds, i) <==> NotFreshSince(h[..n], ds[..n], i) && After(h, ds, |h|).phase != Inactive
  {
    var n := |h| - 1;
    forall j | i < j <= n
      ensures After(h[..n], ds[..n], j) == After(h, ds, j)
    {
      AfterPrefix(h, ds, n, j);
    }
    hide After;
  }

  ghost predicate WasActivated(h: seq<Sample>, ds: seq<Durations>)
    requires |ds| == |h|
  {
    exists i :: 0 <= i < |h| && Activates(h, ds, i) && NotFreshSince(h, ds, i)
  }

  ghost predicate WasBypassed(h: seq<Sample>, ds: seq<Durations>)
    requires |ds| == |h|
  {
    exists i :: 0 <= i < |h| && Bypasses(h, ds, i) && NotFreshSince(h, ds, i)
  }

  /** With one more sample: it is the sample in question, or one before it was. */
  lemma OneMoreSample(h: seq<Sample>, ds: seq<Durations>)
    requires |ds| == |h| && h != []
    ensures var n := |h| - 1; var up := EvaluateEach(FRESH, h, ds).phase != Inactive;
      && (WasActivated(h, ds) <==> up && (Activates(h, ds, n) || WasActivated(h[..n], ds[..n])))
      && (WasBypassed(h, ds) <==> up && (Bypasses(h, ds, n) || WasBypassed(h[..n], ds[..n])))
  {
    var n := |h| - 1;
    AfterAll(h, ds);
    LastSample(h, ds);
    forall i | 0 <= i < n
      ensures SameBefore(h, ds, i)
    {
      AfterPrefix(h, ds, n, i);
      NotFreshExtends(h, ds, i);
      hide After, NotFreshSince;
    }
    hide EvaluateEach, Activates, Bypasses, NotFreshSince, After;
    FromBefore(h, ds);
  }

  lemma LastSample(h: seq<Sample>, ds: seq<Durations>)
    requires |ds| == |h| && h != []
    ensures NotFreshSince(h, ds, |h| - 1) <==> After(h, ds, |h|).phase != Inactive
  {
    hide After;
  }

  /** What sample i did, and whether the tracker was fresh since, is seen alike with and without the last sample. */
  predicate SameBefore(h: seq<Sample>, ds: seq<Durations>, i: nat)
    requires |ds| == |h| && i < |h| - 1
  {
    var n := |h| - 1;
    && Activates(h, ds, i) == Activates(h[..n], ds[..n], i) && Bypasses(h, ds, i) == Bypasses(h[..n], ds[..n], i)
    && (NotFreshSince(h, ds, i) <==> NotFreshSince(h[..n], ds[..n], i) && After(h, ds, |h|).phase != Inactive)
  }

  lemma FromBefore(h: seq<Sample>, ds: seq<Durations>)
    requires |ds| == |h| && h != [] && forall i :: 0 <= i < |h| - 1 ==> SameBefore(h, ds, i)
    requires NotFreshSince(h, ds, |h| - 1) <==> After(h, ds, |h|).phase != Inactive
    ensures var n := |h| - 1; var up := After(h, ds, |h|).phase != Inactive;
      && (WasActivated(h, ds) <==> up && (Activates(h, ds, n) || WasActivated(h[..n], ds[..n])))
      && (WasBypassed(h, ds) <==> up && (Bypasses(h, ds, n) || WasBypassed(h[..n], ds[..n])))
  {
    var n := |h| - 1;
    hide Activates, Bypasses, NotFreshSince, After;
    if WasActivated(h, ds) {
      var i :| 0 <= i < |h| && Activates(h, ds, i) && NotFreshSince(h, ds, i);
      assert i < n ==> SameBefore(h, ds, i);
    }
    if WasActivated(h[..n], ds[..n]) {
      var i :| 0 <= i < n && Activates(h[..n], ds[..n], i) && NotFreshSince(h[..n], ds[..n], i);
      assert SameBefore(h, ds, i);
    }
    if WasBypassed(h, ds) {
      var i :| 0 <= i < |h| && Bypasses(h, ds, i) && NotFreshSince(h, ds, i);
      assert i < n ==> SameBefore(h, ds, i);
    }
    if WasBypassed(h[..n], ds[..n]) {
      var i :| 0 <= i < n && Bypasses(h[..n], ds[..n], i) && NotFreshSince(h[..n], ds[..n], i);
      assert SameBefore(h, ds, i);
    }
  }

  /** A tracker counts an activation exactly when, since it was last fresh, a pending phase ended by one; and it is active
      or clearing without one exactly when a pending phase ended by a sample with the clear and not the entry condition.
      These are the only two ways. */
  lemma {:induction false} ActiveIff(h: seq<Sample>, ds: seq<Durations>)
    requires |ds| == |h|
    ensures var t := EvaluateEach(FRESH, h, ds);
      && (t.activations > 0 <==> WasActivated(h, ds))
      && (IsUp(t) && t.activations == 0 <==> WasBypassed(h, ds))
      && (t.activations > 0 ==> IsUp(t))
    decreases |h|
  {
    if h != [] {
      var n := |h| - 1;
      var t := EvaluateEach(FRESH, h[..n], ds[..n]);
      ActiveIff(h[..n], ds[..n]);
      OneMoreSample(h, ds);
      ClearEvidenceHolds(h[..n], ds[..n]);
      assert Activates(h, ds, n) <==>
        Underlying(t) == Pending && h[n].usable && h[n].entry && Since(h[n].now, t.entryStart) >= ds[n].entry;
      assert Bypasses(h, ds, n) <==> Underlying(t) == Pending && h[n].usable && h[n].clear && !h[n].entry;
      assert EvaluateEach(FRESH, h, ds) == Evaluate(t, h[n], ds[n]);
      hide EvaluateEach, After, Activates, Bypasses, WasActivated, WasBypassed, ClearNow, Since;
    }
  }

  /** Uninterrupted entry from rest activates exactly when it lasts for the entry duration after its first sample. */
  lemma {:induction false} SustainedEntryActivatesIff(h: seq<Sample>, d: Durations)
    requires Ordered(h) && h != [] && forall k :: 0 <= k < |h| ==> h[k].usable && h[k].entry && !h[k].clear
    ensures var t := EvaluateAll(FRESH, h, d);
      && (t.phase == Active <==> |h| > 1 && h[|h| - 1].now - h[0].now >= d.entry)
      && (t.phase == Active <==> t.activations > 0) && (t.phase == Active || t.phase == Pending) && t.entryStart == h[0].now
    decreases |h|
  {
    var front, s := h[..|h| - 1], h[|h| - 1];
    if |h| > 1 {
      assert Since(s.now, h[0].now) == s.now - h[0].now;
      SustainedEntryActivatesIff(front, d);
    } else {
      assert EvaluateAll(FRESH, front, d) == FRESH;
    }
  }

  /** The shortest way round: one entry sample, one clear sample and one of neither make an active tracker that counts no
      activation, whatever the durations. */
  lemma ActiveWithoutSustainedEntry(d: Durations)
    requires d.entry > 0
    ensures var h := [Sample(1, true, false, true), Sample(2, false, true, true), Sample(3, false, false, true)];
      var t := EvaluateAll(FRESH, h, d);
      t.phase == Active && t.activations == 0
  {
    var a, b, c := Sample(1, true, false, true), Sample(2, false, true, true), Sample(3, false, false, true);
    assert [a, b, c][..2] == [a, b] && [a, b][..1] == [a] && [a][..0] == [];
    assert EvaluateAll(FRESH, [a], d).phase == Pending;
    assert EvaluateAll(FRESH, [a, b], d).phase == ClearPending;
  }
}
