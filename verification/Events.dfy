/** Deduplicating pod lifecycle events for the chart overlay. */
module Events {
  import Text

  datatype Kind = Oom | Restart | NewPod

  datatype Event = Event(timestamp: int, workload: string, kind: Kind)

  const SECONDS_PER_HOUR := 3600
  const MAX_EVENTS := 80

  // ---------- specification ----------

  function KindText(k: Kind): string {
    match k
    case Oom => "oom"
    case Restart => "restart"
    case NewPod => "new_pod"
  }

  /** The hour of a time: integer division that rounds toward zero. */
  function Hour(ts: int): int {
    if ts >= 0 then ts / SECONDS_PER_HOUR else -(-ts / SECONDS_PER_HOUR)
  }

  function OomKey(e: Event): string {
    e.workload + "-" + Text.Numeral(Hour(e.timestamp))
  }

  function Key(e: Event): string {
    KindText(e.kind) + "-" + OomKey(e)
  }

  ghost predicate SameBucket(d: Event, e: Event) {
    d.kind == e.kind && d.workload == e.workload && Hour(d.timestamp) == Hour(e.timestamp)
  }

  ghost predicate SameWorkloadHour(d: Event, e: Event) {
    d.workload == e.workload && Hour(d.timestamp) == Hour(e.timestamp)
  }

  function OomKeys(events: seq<Event>): set<string> {
    set e | e in events && e.kind == Oom :: OomKey(e)
  }

  function Keys(events: seq<Event>): set<string> {
    set e | e in events :: Key(e)
  }

  /** An out-of-memory kill of the same key makes a generic restart redundant. */
  predicate Shadowed(e: Event, ooms: set<string>) {
    e.kind == Restart && OomKey(e) in ooms
  }

  /** The indices of the events that are kept. */
  function Kept(events: seq<Event>, ooms: set<string>): (kept: seq<nat>)
    ensures forall i :: 0 <= i < |kept| ==> kept[i] < |events|
    ensures forall i, j :: 0 <= i < j < |kept| ==> kept[i] < kept[j]
  {
    if events == [] then []
    else
      var n := |events| - 1;
      var rest := Kept(events[..n], ooms);
      if Key(events[n]) in Keys(At(events, rest)) || Shadowed(events[n], ooms) then rest else rest + [n]
  }

  function At(events: seq<Event>, indices: seq<nat>): (r: seq<Event>)
    requires forall i :: 0 <= i < |indices| ==> indices[i] < |events|
    ensures |r| == |indices| && forall i :: 0 <= i < |indices| ==> r[i] == events[indices[i]]
  {
    seq(|indices|, i requires 0 <= i < |indices| => events[indices[i]])
  }

  /** The events kept before the cut, in order. */
  function Deduped(events: seq<Event>): seq<Event> {
    At(events, Kept(events, OomKeys(events)))
  }

  /** Keys confuse no two buckets, nor the hour of an OOM with that of a restart of another workload or hour. */
  ghost predicate KeysSeparate(events: seq<Event>) {
    forall d, e | d in events && e in events ::
      && (Key(d) == Key(e) ==> SameBucket(d, e))
      && (d.kind == Oom && e.kind == Restart && OomKey(d) == OomKey(e) ==> SameWorkloadHour(d, e))
  }

  // ---------- the algorithm ----------

  method Dedup(events: seq<Event>) returns (deduped: seq<Event>)
    ensures var all := Deduped(events);
            deduped == if |all| > 80 then all[..80] else all
  {
    var oomKeys: set<string> := {};
    for i := 0 to |events|
      invariant oomKeys == OomKeys(events[..i])
    {
      OomKeysNext(events, i);
      if events[i].kind == Oom {
        oomKeys := oomKeys + {OomKey(events[i])};
      }
    }
    assert events[..|events|] == events;
    deduped := Filter(events, oomKeys);
    if |deduped| > MAX_EVENTS {
      deduped := deduped[..MAX_EVENTS];
    }
  }

  /** What the second pass has kept of the first i events. */
  ghost function KeptOf(events: seq<Event>, ooms: set<string>, i: nat): seq<Event>
    requires i <= |events|
  {
    At(events[..i], Kept(events[..i], ooms))
  }

  /** The second pass. */
  method Filter(events: seq<Event>, oomKeys: set<string>) returns (deduped: seq<Event>)
    ensures deduped == At(events, Kept(events, oomKeys))
  {
    var seen: set<string> := {};
    deduped := [];
    assert KeptOf(events, oomKeys, 0) == [];
    KeptOfAll(events, oomKeys);
    hide KeptOf, Key, OomKey, Kept;
    for i := 0 to |events|
      invariant deduped == KeptOf(events, oomKeys, i) && seen == Keys(deduped)
    {
      var e := events[i];
      KeptNext(events, oomKeys, i);
      var key := Key(e);
      if key in seen {
        continue;
      }
      if e.kind == Restart && OomKey(e) in oomKeys {
        continue;
      }
      seen := seen + {key};
      deduped := deduped + [e];
    }
  }

  lemma OomKeysNext(events: seq<Event>, i: nat)
    requires i < |events|
    ensures OomKeys(events[..i + 1])
         == if events[i].kind == Oom then OomKeys(events[..i]) + {OomKey(events[i])} else OomKeys(events[..i])
  {
    assert events[..i + 1] == events[..i] + [events[i]];
    assert forall e :: e in events[..i + 1] <==> e in events[..i] || e == events[i];
  }

  lemma KeysSnoc(es: seq<Event>, e: Event)
    ensures Keys(es + [e]) == Keys(es) + {Key(e)}
  {
    assert forall d :: d in es + [e] <==> d in es || d == e;
  }

  lemma KeptNext(events: seq<Event>, ooms: set<string>, i: nat)
    requires i < |events|
    ensures var sofar := KeptOf(events, ooms, i);
            && KeptOf(events, ooms, i + 1)
               == (if Key(events[i]) in Keys(sofar) || Shadowed(events[i], ooms) then sofar else sofar + [events[i]])
            && Keys(sofar + [events[i]]) == Keys(sofar) + {Key(events[i])}
  {
    hide Key, Shadowed;
    assert events[..i + 1][..i] == events[..i];
    assert KeptOf(events, ooms, i) == At(events[..i + 1], Kept(events[..i], ooms));
    KeysSnoc(KeptOf(events, ooms, i), events[i]);
  }

  /** Hours are whole hours from the epoch on, one every 3600 seconds. */
  lemma HoursAreWhole(ts: int)
    requires ts >= 0
    ensures 3600 * Hour(ts) <= ts < 3600 * Hour(ts) + 3600
  {
  }

  // ---------- what is kept ----------

  ghost predicate KeysDiffer(es: seq<Event>) {
    forall i, j :: 0 <= i < j < |es| ==> Key(es[i]) != Key(es[j])
  }

  ghost predicate NoneShadowed(es: seq<Event>, ooms: set<string>) {
    forall e :: e in es ==> !Shadowed(e, ooms)
  }

  lemma KeysDifferSnoc(es: seq<Event>, e: Event)
    ensures KeysDiffer(es + [e]) <==> KeysDiffer(es) && Key(e) !in Keys(es)
  {
    hide Key;
    var s := es + [e];
    assert forall i :: 0 <= i < |es| ==> s[i] == es[i] && es[i] in es;
    if KeysDiffer(s) {
      forall d | d in es ensures Key(d) != Key(e) {
        var i :| 0 <= i < |es| && es[i] == d;
        assert Key(s[i]) != Key(s[|es|]);
      }
      forall i, j | 0 <= i < j < |es| ensures Key(es[i]) != Key(es[j]) {
        assert Key(s[i]) != Key(s[j]);
      }
    }
  }

  lemma KeptOfAll(events: seq<Event>, ooms: set<string>)
    ensures KeptOf(events, ooms, |events|) == At(events, Kept(events, ooms))
  {
    assert events[..|events|] == events;
  }

  lemma NothingKeptYet(events: seq<Event>, ooms: set<string>)
    ensures KeptOf(events, ooms, 0) == []
  {
  }

  lemma NoKeysYet()
    ensures KeysDiffer([])
  {
  }

  lemma {:induction false} KeptOfDiffer(events: seq<Event>, ooms: set<string>, i: nat)
    requires i <= |events|
    ensures KeysDiffer(KeptOf(events, ooms, i))
  {
    hide Key, Shadowed, KeptOf, Kept, KeysDiffer, Keys;
    if i == 0 {
      NothingKeptYet(events, ooms);
      NoKeysYet();
    } else {
      KeptOfDiffer(events, ooms, i - 1);
      KeptNext(events, ooms, i - 1);
      KeysDifferSnoc(KeptOf(events, ooms, i - 1), events[i - 1]);
    }
  }

  lemma {:induction false} KeptOfUnshadowed(events: seq<Event>, ooms: set<string>, i: nat)
    requires i <= |events|
    ensures NoneShadowed(KeptOf(events, ooms, i), ooms)
    ensures forall e :: e in KeptOf(events, ooms, i) ==> e in events
  {
    if i > 0 {
      hide Key, Shadowed, KeptOf, KeysDiffer, Keys;
      KeptOfUnshadowed(events, ooms, i - 1);
      KeptNext(events, ooms, i - 1);
    }
  }

  /** Keys of kept events differ, and no kept event is shadowed. */
  lemma KeptKeysDiffer(events: seq<Event>, ooms: set<string>)
    ensures var r := At(events, Kept(events, ooms));
            KeysDiffer(r) && NoneShadowed(r, ooms) && forall e :: e in r ==> e in events
  {
    hide Key, Shadowed, KeysDiffer, NoneShadowed;
    KeptOfDiffer(events, ooms, |events|);
    KeptOfUnshadowed(events, ooms, |events|);
    KeptOfAll(events, ooms);
  }

  lemma {:induction false} CoveredOf(events: seq<Event>, ooms: set<string>, i: nat, j: nat)
    requires j < i <= |events|
    ensures Key(events[j]) in Keys(KeptOf(events, ooms, i)) || Shadowed(events[j], ooms)
  {
    hide Key, Shadowed, KeptOf;
    KeptNext(events, ooms, i - 1);
    if j < i - 1 {
      CoveredOf(events, ooms, i - 1, j);
    }
  }

  /** Every event is represented by a kept one of its key, or shadowed. */
  lemma EveryEventCovered(events: seq<Event>, ooms: set<string>, e: Event)
    requires e in events
    ensures Key(e) in Keys(At(events, Kept(events, ooms))) || Shadowed(e, ooms)
  {
    hide Key, Shadowed, Kept;
    var j :| 0 <= j < |events| && events[j] == e;
    CoveredOf(events, ooms, |events|, j);
    KeptOfAll(events, ooms);
  }

  /** What is kept at step i is there because its key is new and nothing shadows it. */
  lemma {:induction false} KeptIsNew(events: seq<Event>, ooms: set<string>, i: nat, k: nat)
    requires i <= |events| && k < |Kept(events[..i], ooms)|
    ensures Kept(events[..i], ooms)[k] < i
    ensures var p := Kept(events[..i], ooms)[k];
            Key(events[p]) !in Keys(KeptOf(events, ooms, p)) && !Shadowed(events[p], ooms)
  {
    hide Key, Shadowed;
    assert events[..i][..i - 1] == events[..i - 1];
    var rest := Kept(events[..i - 1], ooms);
    if k < |rest| {
      KeptIsNew(events, ooms, i - 1, k);
    } else {
      assert At(events[..i], rest) == At(events[..i - 1], rest);
    }
  }

  /** The kept event of a bucket is the first one of the bucket. */
  lemma KeptIsFirst(events: seq<Event>, k: nat, q: nat)
    requires k < |Kept(events, OomKeys(events))| && q < Kept(events, OomKeys(events))[k]
    ensures !SameBucket(events[q], events[Kept(events, OomKeys(events))[k]])
  {
    var ooms := OomKeys(events);
    var p := Kept(events, ooms)[k];
    assert events[..|events|] == events;
    KeptIsNew(events, ooms, |events|, k);
    CoveredOf(events, ooms, p, q);
    if SameBucket(events[q], events[p]) {
      BucketGivesKeys(events[q], events[p]);
      assert false;
    }
  }

  /** An OOM event is never shadowed, so its key survives. */
  lemma OomKeysSurvive(events: seq<Event>)
    ensures OomKeys(Deduped(events)) <= OomKeys(events)
  {
    KeptKeysDiffer(events, OomKeys(events));
    forall k | k in OomKeys(Deduped(events)) ensures k in OomKeys(events) {
      var d :| d in Deduped(events) && d.kind == Oom && OomKey(d) == k;
      assert d in events;
    }
  }

  lemma KeyIsNew(events: seq<Event>, i: nat)
    requires i < |events| && KeysDiffer(events)
    ensures Key(events[i]) !in Keys(events[..i])
  {
    hide Key;
    forall d | d in events[..i] ensures Key(d) != Key(events[i]) {
      var j :| 0 <= j < i && events[j] == d;
    }
  }

  lemma {:induction false} NothingDropped(events: seq<Event>, ooms: set<string>, i: nat)
    requires i <= |events| && KeysDiffer(events) && NoneShadowed(events, ooms)
    ensures KeptOf(events, ooms, i) == events[..i]
  {
    hide Key, Shadowed, KeptOf, Kept, Keys, KeysDiffer, NoneShadowed;
    if i == 0 {
      NothingKeptYet(events, ooms);
    } else {
      NothingDropped(events, ooms, i - 1);
      KeptNext(events, ooms, i - 1);
      KeyIsNew(events, i - 1);
      NotShadowed(events, ooms, i - 1);
      assert events[..i] == events[..i - 1] + [events[i - 1]];
    }
  }

  lemma NotShadowed(events: seq<Event>, ooms: set<string>, i: nat)
    requires i < |events| && NoneShadowed(events, ooms)
    ensures !Shadowed(events[i], ooms)
  {
    assert events[i] in events;
  }

  lemma NothingToDrop(events: seq<Event>, ooms: set<string>)
    requires KeysDiffer(events) && NoneShadowed(events, ooms)
    ensures At(events, Kept(events, ooms)) == events
  {
    NothingDropped(events, ooms, |events|);
    KeptOfAll(events, ooms);
    assert events[..|events|] == events;
  }

  /** Deduplicating twice is deduplicating once. */
  lemma DedupIsIdempotent(events: seq<Event>)
    ensures Deduped(Deduped(events)) == Deduped(events)
  {
    var r := Deduped(events);
    KeptKeysDiffer(events, OomKeys(events));
    OomKeysSurvive(events);
    assert NoneShadowed(r, OomKeys(r));
    NothingToDrop(r, OomKeys(r));
  }

  /**
   * In terms of (kind, workload, hour): at most one event per bucket, and no restart in an hour with an
   * OOM of its workload.
   */
  lemma KeptPerBucket(events: seq<Event>)
    ensures var r := Deduped(events);
            && (forall i, j :: 0 <= i < j < |r| ==> !SameBucket(r[i], r[j]))
            && (forall d, o :: d in r && o in events && d.kind == Restart && o.kind == Oom ==> !SameWorkloadHour(d, o))
  {
    var ooms, r := OomKeys(events), Deduped(events);
    KeptKeysDiffer(events, ooms);
    forall i, j | 0 <= i < j < |r| ensures !SameBucket(r[i], r[j]) {
      BucketGivesKeys(r[i], r[j]);
      assert Key(r[i]) != Key(r[j]);
    }
    forall d, o | d in r && o in events && d.kind == Restart && o.kind == Oom ensures !SameWorkloadHour(d, o) {
      BucketGivesKeys(d, o);
      assert OomKey(o) in ooms;
    }
  }

  lemma BucketGivesKeys(d: Event, e: Event)
    ensures SameBucket(d, e) ==> Key(d) == Key(e)
    ensures SameWorkloadHour(d, e) ==> OomKey(d) == OomKey(e)
  {
  }

  ghost predicate CoveredBy(e: Event, d: Event) {
    SameBucket(e, d) || (e.kind == Restart && d.kind == Oom && SameWorkloadHour(e, d))
  }

  /** Some kept event stands for e: one of its own bucket, or an OOM in the hour of a restart. */
  ghost predicate Covered(events: seq<Event>, e: Event) {
    exists d :: d in Deduped(events) && CoveredBy(e, d)
  }

  lemma CoveredWhenSeparate(events: seq<Event>, e: Event)
    requires KeysSeparate(events) && e in events
    ensures Covered(events, e)
  {
    var ooms, r := OomKeys(events), Deduped(events);
    KeptKeysDiffer(events, ooms);
    EveryEventCovered(events, ooms, e);
    hide Key, OomKey, Deduped, KeysDiffer, NoneShadowed;
    if Key(e) in Keys(r) {
      var d :| d in r && Key(d) == Key(e);
      assert d in events && CoveredBy(e, d);
    } else {
      var o :| o in events && o.kind == Oom && OomKey(o) == OomKey(e);
      assert SameWorkloadHour(o, e);
      EveryEventCovered(events, ooms, o);
      var d :| d in r && Key(d) == Key(o);
      assert d in events && SameBucket(d, o);
      assert CoveredBy(e, d);
    }
  }

  lemma KeptOncePerKey(events: seq<Event>, a: Event, b: Event)
    requires a in Deduped(events) && b in Deduped(events) && Key(a) == Key(b)
    ensures a == b
  {
    KeptKeysDiffer(events, OomKeys(events));
    hide Key, Kept;
    var r := Deduped(events);
    var i, j :| 0 <= i < |r| && 0 <= j < |r| && r[i] == a && r[j] == b;
    assert i == j;
  }

  /** The event that covers e has its key, or e is a restart that shares its OOM key with an OOM of the list. */
  lemma CoverHasKey(events: seq<Event>, e: Event) returns (d: Event)
    requires Covered(events, e)
    ensures d in Deduped(events) && d in events && CoveredBy(e, d) && OomKey(d) == OomKey(e)
    ensures if Shadowed(e, OomKeys(events)) then d.kind == Oom else SameBucket(e, d) && Key(d) == Key(e)
  {
    d :| d in Deduped(events) && CoveredBy(e, d);
    KeptKeysDiffer(events, OomKeys(events));
    BucketGivesKeys(e, d);
    assert d in events && !Shadowed(d, OomKeys(events));
  }

  lemma SeparateWhenCovered(events: seq<Event>, d: Event, e: Event)
    requires Covered(events, d) && Covered(events, e) && OomKey(d) == OomKey(e)
    requires d.kind == e.kind || (d.kind == Oom && e.kind == Restart && d in events)
    ensures SameWorkloadHour(d, e)
  {
    hide OomKey, Text.Numeral, Deduped, Covered;
    var c := CoverHasKey(events, d);
    var f := CoverHasKey(events, e);
    assert c.kind == f.kind && Key(c) == Key(f);
    KeptOncePerKey(events, c, f);
  }

  /** Nothing is lost, whatever is dropped, exactly when keys confuse neither buckets nor OOM hours. */
  lemma CoveredIff(events: seq<Event>)
    ensures (forall e :: e in events ==> Covered(events, e)) <==> KeysSeparate(events)
  {
    hide Covered, OomKey, Key;
    if KeysSeparate(events) {
      forall e | e in events ensures Covered(events, e) {
        CoveredWhenSeparate(events, e);
      }
    }
    if forall e :: e in events ==> Covered(events, e) {
      forall d, e | d in events && e in events
        ensures Key(d) == Key(e) ==> SameBucket(d, e)
        ensures d.kind == Oom && e.kind == Restart && OomKey(d) == OomKey(e) ==> SameWorkloadHour(d, e)
      {
        if Key(d) == Key(e) {
          KeyInjective(d, e);
        }
        if OomKey(d) == OomKey(e) && (d.kind == e.kind || (d.kind == Oom && e.kind == Restart)) {
          SeparateWhenCovered(events, d, e);
        }
      }
    }
  }

  // ---------- when keys separate the buckets ----------

  lemma NoDashInDecimal(n: nat)
    ensures '-' !in Text.Decimal(n)
  {
  }

  /** The key of a workload and hour determines both, unless a workload ends in a dash and an hour is negative. */
  lemma OomKeyInjective(d: Event, e: Event)
    requires OomKey(d) == OomKey(e)
    requires || (Hour(d.timestamp) >= 0 && Hour(e.timestamp) >= 0)
             || (NoTrailingDash(d.workload) && NoTrailingDash(e.workload))
    ensures SameWorkloadHour(d, e)
  {
    var m, n := Hour(d.timestamp), Hour(e.timestamp);
    var md, nd := Text.Decimal(if m < 0 then -m else m), Text.Decimal(if n < 0 then -n else n);
    var mh, nh := d.workload + (if m < 0 then "-" else ""), e.workload + (if n < 0 then "-" else "");
    DashBeforeDigits(d, mh, md);
    DashBeforeDigits(e, nh, nd);
    NoDashInDecimal(if m < 0 then -m else m);
    NoDashInDecimal(if n < 0 then -n else n);
    Text.SplitAtLast(mh, md, nh, nd, '-');
    Text.DecimalInjective(if m < 0 then -m else m, if n < 0 then -n else n);
    SameSign(d.workload, m, e.workload, n);
  }

  predicate NoTrailingDash(w: string) {
    w == [] || w[|w| - 1] != '-'
  }

  /** A key is its workload, a dash for a negative hour, the separating dash and the digits. */
  lemma DashBeforeDigits(d: Event, head: string, digits: string)
    requires var m := Hour(d.timestamp);
             head == d.workload + (if m < 0 then "-" else "") && digits == Text.Decimal(if m < 0 then -m else m)
    ensures OomKey(d) == head + ['-'] + digits
  {
    if Hour(d.timestamp) < 0 {
      assert OomKey(d) == d.workload + "-" + ("-" + digits);
    }
  }

  lemma SameSign(v: string, m: int, w: string, n: int)
    requires v + (if m < 0 then "-" else "") == w + (if n < 0 then "-" else "")
    requires (if m < 0 then -m else m) == (if n < 0 then -n else n)
    requires (m >= 0 && n >= 0) || (NoTrailingDash(v) && NoTrailingDash(w))
    ensures v == w && m == n
  {
    assert v + "" == v && w + "" == w;
    if m < 0 {
      assert (v + "-")[|v + "-"| - 1] == '-';
      if n < 0 {
        assert v == (v + "-")[..|v|] && w == (w + "-")[..|w|];
      } else {
        DashIsLast(v, w);
      }
    } else if n < 0 {
      DashIsLast(w, v);
    }
  }

  lemma DashIsLast(v: string, w: string)
    requires v + "-" == w
    ensures !NoTrailingDash(w)
  {
    assert w[|w| - 1] == '-';
  }

  lemma KeyInjective(d: Event, e: Event)
    requires Key(d) == Key(e)
    ensures d.kind == e.kind && OomKey(d) == OomKey(e)
  {
    var a, b := KindText(d.kind), KindText(e.kind);
    assert Key(d) == a + ['-'] + OomKey(d) && Key(e) == b + ['-'] + OomKey(e);
    Text.SplitAtFirst(a, OomKey(d), b, OomKey(e), '-');
    assert |a| == |b|;
  }

  /** Keys separate the buckets when no hour is negative, or when no workload name ends in a dash. */
  lemma KeysSeparateWhen(events: seq<Event>)
    requires || (forall e :: e in events ==> Hour(e.timestamp) >= 0)
             || (forall e :: e in events ==> NoTrailingDash(e.workload))
    ensures KeysSeparate(events)
  {
    forall d, e | d in events && e in events
      ensures Key(d) == Key(e) ==> SameBucket(d, e)
      ensures OomKey(d) == OomKey(e) ==> SameWorkloadHour(d, e)
    {
      if OomKey(d) == OomKey(e) {
        OomKeyInjective(d, e);
      }
      if Key(d) == Key(e) {
        KeyInjective(d, e);
      }
    }
  }

  /** The events of the report come from the past week, so their times are not negative and none is lost. */
  lemma DroppedIsCovered(events: seq<Event>)
    requires forall e :: e in events ==> e.timestamp >= 0
    ensures forall e :: e in events ==> Covered(events, e)
  {
    KeysSeparateWhen(events);
    CoveredIff(events);
  }
}
