/**
 A navigation store: three growing lists (Keplerian ephemerides, GLONASS
 ephemerides, ionosphere records) addressed through one index space, in which the
 index of a record shifts whenever an earlier list grows.
 */
module NavStore {
  import opened SimTime

  datatype Kind = Ephemeris | GlonassEphemeris | Ionosphere

  /** `body` stands for every field of the broadcast record that the protocol does not look at. */
  datatype Record = Record(
    kind: Kind, satellite: int, system: int, prn: int, messageType: int, iode: int, iodc: int,
    transmit: Time, body: int)

  /** What two records are compared by when a copied record is looked up again. */
  datatype Identity = Identity(
    kind: Kind, satellite: int, system: int, prn: int, messageType: int, iode: int, iodc: int, transmit: Time)

  /** GLONASS records report no IODC, ionosphere records no satellite and no issue of data. */
  function InfoOf(r: Record): Identity {
    match r.kind
    case Ephemeris => Identity(Ephemeris, r.satellite, r.system, r.prn, r.messageType, r.iode, r.iodc, r.transmit)
    case GlonassEphemeris => Identity(GlonassEphemeris, r.satellite, r.system, r.prn, r.messageType, r.iode, -1,
                                      r.transmit)
    case Ionosphere => Identity(Ionosphere, 0, r.system, r.prn, r.messageType, -1, -1, r.transmit)
  }

  datatype Store = Store(eph: seq<Record>, geph: seq<Record>, ion: seq<Record>)

  const EMPTY := Store([], [], [])

  ghost predicate AllOfKind(records: seq<Record>, kind: Kind) {
    forall i :: 0 <= i < |records| ==> records[i].kind == kind && Valid(records[i].transmit)
  }

  /** Every record sits in the list of its kind, and has a valid transmit time. */
  ghost predicate Typed(s: Store) {
    AllOfKind(s.eph, Ephemeris) && AllOfKind(s.geph, GlonassEphemeris) && AllOfKind(s.ion, Ionosphere)
  }

  function Count(s: Store): nat { |s.eph| + |s.geph| + |s.ion| }

  function RecordAt(s: Store, index: nat): Record
    requires index < Count(s)
  {
    if index < |s.eph| then s.eph[index]
    else if index < |s.eph| + |s.geph| then s.geph[index - |s.eph|]
    else s.ion[index - |s.eph| - |s.geph|]
  }

  /** Copy record `index` of the source to the end of its list in the destination. */
  function CopyRecord(source: Store, index: nat, destination: Store): Store
    requires index < Count(source)
  {
    if index < |source.eph| then destination.(eph := destination.eph + [source.eph[index]])
    else if index < |source.eph| + |source.geph| then
      destination.(geph := destination.geph + [source.geph[index - |source.eph|]])
    else destination.(ion := destination.ion + [source.ion[index - |source.eph| - |source.geph|]])
  }

  /** The last index below n at which a record with this identity sits, or -1. */
  function FindLast(s: Store, id: Identity, n: nat): (index: int)
    requires n <= Count(s)
    ensures -1 <= index < n
    ensures index >= 0 ==> InfoOf(RecordAt(s, index)) == id
    ensures forall k: nat :: index < k < n ==> InfoOf(RecordAt(s, k)) != id
  {
    if n == 0 then -1
    else if InfoOf(RecordAt(s, n - 1)) == id then n - 1
    else FindLast(s, id, n - 1)
  }

  /** The search from the end, as the receiver does it. */
  method FindReceiverRecord(s: Store, id: Identity) returns (index: int)
    ensures index == FindLast(s, id, Count(s))
  {
    index := Count(s) - 1;
    while index >= 0
      invariant -1 <= index < Count(s)
      invariant FindLast(s, id, Count(s)) == FindLast(s, id, index + 1)
      decreases index
    {
      if InfoOf(RecordAt(s, index)) == id {
        return;
      }
      index := index - 1;
    }
  }

  /** Where the next copied record of a kind lands in the shifting index space. */
  function LandingIndex(s: Store, kind: Kind): nat {
    match kind
    case Ephemeris => |s.eph|
    case GlonassEphemeris => |s.eph| + |s.geph|
    case Ionosphere => Count(s)
  }

  /**
   Looking up the identity of a record just copied finds the copy itself, however
   many records with the same identity are already there and wherever its list
   lies in the index space.
   */
  lemma CopiedRecordIsFound(source: Store, index: nat, destination: Store)
    requires Typed(source) && Typed(destination) && index < Count(source)
    ensures var r := RecordAt(source, index);
            var after := CopyRecord(source, index, destination);
            && Typed(after) && Count(after) == Count(destination) + 1
            && destination.eph <= after.eph && destination.geph <= after.geph && destination.ion <= after.ion
            && FindLast(after, InfoOf(r), Count(after)) == LandingIndex(destination, r.kind)
            && RecordAt(after, LandingIndex(destination, r.kind)) == r
  {
    var r := RecordAt(source, index);
    var after := CopyRecord(source, index, destination);
    var landing := LandingIndex(destination, r.kind);
    assert RecordAt(after, landing) == r;
    forall k: nat | landing < k < Count(after)
      ensures InfoOf(RecordAt(after, k)) != InfoOf(r)
    {
    }
  }

  // ---------- The start-up snapshot ----------

  /** The record may be in a snapshot taken at `at`. */
  predicate Eligible(r: Record, at: Time, maxSatellite: int) {
    0 < r.satellite <= maxSatellite && Compare(r.transmit, at) <= 0
  }

  predicate SameKey(a: Record, b: Record) { a.satellite == b.satellite && a.messageType == b.messageType }

  predicate InRange(indices: seq<nat>, n: nat) { forall p :: 0 <= p < |indices| ==> indices[p] < n }

  /** Position in `selected` of the first candidate with the key of r, or its length. */
  function KeyPosition(records: seq<Record>, selected: seq<nat>, r: Record): (p: nat)
    requires InRange(selected, |records|)
    ensures p <= |selected|
    ensures p < |selected| ==> SameKey(records[selected[p]], r)
    ensures forall q :: 0 <= q < p ==> !SameKey(records[selected[q]], r)
  {
    if selected == [] then 0
    else if SameKey(records[selected[0]], r) then 0
    else 1 + KeyPosition(records, selected[1..], r)
  }

  function SelectStep(records: seq<Record>, selected: seq<nat>, i: nat, at: Time, maxSatellite: int): seq<nat>
    requires i < |records| && InRange(selected, |records|)
  {
    if !Eligible(records[i], at, maxSatellite) then selected
    else
      var p := KeyPosition(records, selected, records[i]);
      if p == |selected| then selected + [i]
      else if Compare(records[i].transmit, records[selected[p]].transmit) > 0 then selected[p := i]
      else selected
  }

  /** The selection after looking at the first n records. */
  function Selected(records: seq<Record>, n: nat, at: Time, maxSatellite: int): (selected: seq<nat>)
    requires n <= |records|
    ensures InRange(selected, |records|)
  {
    if n == 0 then []
    else SelectStep(records, Selected(records, n - 1, at, maxSatellite), n - 1, at, maxSatellite)
  }

  method SelectLatest(records: seq<Record>, at: Time, maxSatellite: int) returns (selected: seq<nat>)
    ensures selected == Selected(records, |records|, at, maxSatellite)
  {
    selected := [];
    for i := 0 to |records|
      invariant selected == Selected(records, i, at, maxSatellite)
    {
      if Eligible(records[i], at, maxSatellite) {
        var p := 0;
        while p < |selected| && !SameKey(records[selected[p]], records[i])
          invariant p <= |selected|
          invariant forall q :: 0 <= q < p ==> !SameKey(records[selected[q]], records[i])
        {
          p := p + 1;
        }
        FirstPositionIsUnique(records, selected, records[i], p);
        if p == |selected| {
          selected := selected + [i];
        } else if Compare(records[i].transmit, records[selected[p]].transmit) > 0 {
          selected := selected[p := i];
        }
      }
    }
  }

  lemma FirstPositionIsUnique(records: seq<Record>, selected: seq<nat>, r: Record, p: nat)
    requires InRange(selected, |records|)
    requires p <= |selected| && (p < |selected| ==> SameKey(records[selected[p]], r))
    requires forall q :: 0 <= q < p ==> !SameKey(records[selected[q]], r)
    ensures p == KeyPosition(records, selected, r)
  {
  }

  ghost predicate ValidTimes(records: seq<Record>) {
    forall i :: 0 <= i < |records| ==> Valid(records[i].transmit)
  }

  /** j is in the running for the key of i. */
  predicate Rival(records: seq<Record>, i: nat, j: nat, at: Time, maxSatellite: int)
    requires i < |records| && j < |records|
  {
    Eligible(records[j], at, maxSatellite) && SameKey(records[i], records[j])
  }

  /** i was transmitted after j, or at the same time and stands no later in the file. */
  predicate Beats(records: seq<Record>, i: nat, j: nat)
    requires i < |records| && j < |records|
  {
    Abs(records[j].transmit) < Abs(records[i].transmit)
    || (Abs(records[j].transmit) == Abs(records[i].transmit) && i <= j)
  }

  /** Among the first n records, i is the one to keep for its key: transmitted last, and first of those in the file. */
  ghost predicate LatestOfKey(records: seq<Record>, n: nat, i: nat, at: Time, maxSatellite: int)
    requires i < n <= |records|
  {
    && Eligible(records[i], at, maxSatellite)
    && forall j: nat :: j < n && Rival(records, i, j, at, maxSatellite) ==> Beats(records, i, j)
  }

  /** No key is selected twice. */
  ghost predicate DistinctKeys(records: seq<Record>, selected: seq<nat>)
    requires InRange(selected, |records|)
  {
    forall p, q :: 0 <= p < q < |selected| ==> !SameKey(records[selected[p]], records[selected[q]])
  }

  /** `selected` holds exactly the records to keep among the first n, one a key. */
  ghost predicate KeepsLatest(records: seq<Record>, n: nat, selected: seq<nat>, at: Time, maxSatellite: int)
    requires n <= |records|
  {
    && InRange(selected, n)
    && DistinctKeys(records, selected)
    && forall i: nat :: i < n ==> (i in selected <==> LatestOfKey(records, n, i, at, maxSatellite))
  }

  /** One more record changes the verdict on an earlier one only by being later and of its key. */
  lemma LatestOfKeyStep(records: seq<Record>, n: nat, i: nat, at: Time, maxSatellite: int)
    requires i + 1 < n <= |records| && ValidTimes(records)
    ensures LatestOfKey(records, n, i, at, maxSatellite) <==>
            LatestOfKey(records, n - 1, i, at, maxSatellite)
            && (Rival(records, i, n - 1, at, maxSatellite) ==> Beats(records, i, n - 1))
  {
  }

  lemma LatestOfKeySteps(records: seq<Record>, n: nat, at: Time, maxSatellite: int)
    requires 0 < n <= |records| && ValidTimes(records)
    ensures forall i: nat :: i < n - 1 ==>
              (LatestOfKey(records, n, i, at, maxSatellite) <==>
               LatestOfKey(records, n - 1, i, at, maxSatellite)
               && (Rival(records, i, n - 1, at, maxSatellite) ==> Beats(records, i, n - 1)))
  {
    forall i: nat | i < n - 1
      ensures LatestOfKey(records, n, i, at, maxSatellite) <==>
              LatestOfKey(records, n - 1, i, at, maxSatellite)
              && (Rival(records, i, n - 1, at, maxSatellite) ==> Beats(records, i, n - 1))
    {
      LatestOfKeyStep(records, n, i, at, maxSatellite);
    }
  }

  /**
   The snapshot keeps exactly one record for each satellite and message type that
   has one available: the latest, and the first of those in the file when several
   were transmitted at the same time.
   */
  lemma {:induction false} SnapshotIsLatestPerKey(records: seq<Record>, n: nat, at: Time, maxSatellite: int)
    requires n <= |records| && ValidTimes(records)
    ensures KeepsLatest(records, n, Selected(records, n, at, maxSatellite), at, maxSatellite)
  {
    if n > 0 {
      SnapshotIsLatestPerKey(records, n - 1, at, maxSatellite);
      var before := Selected(records, n - 1, at, maxSatellite);
      if !Eligible(records[n - 1], at, maxSatellite) {
        LatestOfKeySteps(records, n, at, maxSatellite);
      } else if KeyPosition(records, before, records[n - 1]) == |before| {
        SnapshotNewKey(records, n, before, at, maxSatellite);
      } else {
        SnapshotOldKey(records, n, before, at, maxSatellite);
      }
    }
  }

  /** Every eligible record below n has a latest one of its key. */
  lemma {:induction false} LatestExists(records: seq<Record>, n: nat, j: nat, at: Time, maxSatellite: int)
    returns (i: nat)
    requires j < n <= |records| && Eligible(records[j], at, maxSatellite) && ValidTimes(records)
    ensures i < n && SameKey(records[i], records[j]) && LatestOfKey(records, n, i, at, maxSatellite)
  {
    var last := n - 1;
    if j < last {
      i := LatestExists(records, last, j, at, maxSatellite);
      if Rival(records, i, last, at, maxSatellite) && !Beats(records, i, last) {
        LastBeats(records, n, i, at, maxSatellite);
        i := last;
      }
    } else if k: nat :| k < last && Rival(records, last, k, at, maxSatellite) {
      i := LatestExists(records, last, k, at, maxSatellite);
      if !Beats(records, i, last) {
        LastBeats(records, n, i, at, maxSatellite);
        i := last;
      }
    } else {
      i := j;
    }
  }

  /** If the latest of the others of its key does not beat the last record, the last record beats them all. */
  lemma LastBeats(records: seq<Record>, n: nat, i: nat, at: Time, maxSatellite: int)
    requires i + 1 < n <= |records| && ValidTimes(records)
    requires LatestOfKey(records, n - 1, i, at, maxSatellite)
    requires Rival(records, i, n - 1, at, maxSatellite) && !Beats(records, i, n - 1)
    ensures LatestOfKey(records, n, n - 1, at, maxSatellite)
  {
    var last := n - 1;
    forall j: nat | j < n && Rival(records, last, j, at, maxSatellite)
      ensures Beats(records, last, j)
    {
      assert j < last ==> Rival(records, i, j, at, maxSatellite);
    }
  }

  lemma NoRivalBefore(records: seq<Record>, last: nat, before: seq<nat>, at: Time, maxSatellite: int)
    requires last < |records| && ValidTimes(records)
    requires KeepsLatest(records, last, before, at, maxSatellite)
    requires KeyPosition(records, before, records[last]) == |before|
    ensures forall j: nat :: j < last ==> !Rival(records, last, j, at, maxSatellite)
  {
    forall j: nat | j < last
      ensures !Rival(records, last, j, at, maxSatellite)
    {
      RivalIsSelected(records, last + 1, before, j, at, maxSatellite);
    }
  }

  /** A record of a key not selected yet changes no other verdict. */
  lemma NewKeyOthers(records: seq<Record>, n: nat, before: seq<nat>, i: nat, at: Time, maxSatellite: int)
    requires 0 < n <= |records| && ValidTimes(records) && i < n - 1
    requires KeepsLatest(records, n - 1, before, at, maxSatellite)
    requires KeyPosition(records, before, records[n - 1]) == |before|
    ensures i in before <==> LatestOfKey(records, n, i, at, maxSatellite)
  {
    LatestOfKeyStep(records, n, i, at, maxSatellite);
    RivalIsSelected(records, n, before, i, at, maxSatellite);
    assert i in before <==> LatestOfKey(records, n - 1, i, at, maxSatellite);
  }

  /** It joins the selection itself. */
  lemma NewKeyMember(records: seq<Record>, n: nat, before: seq<nat>, at: Time, maxSatellite: int)
    requires 0 < n <= |records| && ValidTimes(records)
    requires KeepsLatest(records, n - 1, before, at, maxSatellite)
    requires Eligible(records[n - 1], at, maxSatellite)
    requires KeyPosition(records, before, records[n - 1]) == |before|
    ensures LatestOfKey(records, n, n - 1, at, maxSatellite)
  {
    NoRivalBefore(records, n - 1, before, at, maxSatellite);
  }

  lemma NewKeyDistinct(records: seq<Record>, before: seq<nat>, last: nat)
    requires last < |records| && InRange(before, last) && DistinctKeys(records, before)
    requires KeyPosition(records, before, records[last]) == |before|
    ensures InRange(before + [last], last + 1) && DistinctKeys(records, before + [last])
  {
    var selected := before + [last];
    forall p, q | 0 <= p < q < |selected|
      ensures !SameKey(records[selected[p]], records[selected[q]])
    {
      if q < |before| {
        assert !SameKey(records[before[p]], records[before[q]]);
      }
    }
  }

  lemma SnapshotNewKey(records: seq<Record>, n: nat, before: seq<nat>, at: Time, maxSatellite: int)
    requires 0 < n <= |records| && ValidTimes(records)
    requires KeepsLatest(records, n - 1, before, at, maxSatellite)
    requires Eligible(records[n - 1], at, maxSatellite)
    requires KeyPosition(records, before, records[n - 1]) == |before|
    ensures KeepsLatest(records, n, before + [n - 1], at, maxSatellite)
  {
    NewKeyDistinct(records, before, n - 1);
    forall i: nat | i < n
      ensures i in before + [n - 1] <==> LatestOfKey(records, n, i, at, maxSatellite)
    {
      if i < n - 1 {
        NewKeyOthers(records, n, before, i, at, maxSatellite);
      } else {
        NewKeyMember(records, n, before, at, maxSatellite);
      }
    }
  }

  /** If the last record has an earlier rival, its key is already selected. */
  lemma RivalIsSelected(records: seq<Record>, n: nat, before: seq<nat>, j: nat, at: Time, maxSatellite: int)
    requires 0 < n <= |records| && j < n - 1 && ValidTimes(records)
    requires KeepsLatest(records, n - 1, before, at, maxSatellite)
    ensures Rival(records, n - 1, j, at, maxSatellite) ==> KeyPosition(records, before, records[n - 1]) < |before|
  {
    if Rival(records, n - 1, j, at, maxSatellite) {
      var i := LatestExists(records, n - 1, j, at, maxSatellite);
      assert i in before;
      var q :| 0 <= q < |before| && before[q] == i;
    }
  }

  /** A last record that its kept rival beats leaves the selection right. */
  lemma BeatenKeepsLatest(records: seq<Record>, n: nat, before: seq<nat>, kept: nat, at: Time, maxSatellite: int)
    requires 0 < n <= |records| && ValidTimes(records) && KeepsLatest(records, n - 1, before, at, maxSatellite)
    requires Eligible(records[n - 1], at, maxSatellite) && kept in before
    requires Rival(records, kept, n - 1, at, maxSatellite) && Beats(records, kept, n - 1)
    requires forall i :: i in before && i != kept ==> !SameKey(records[i], records[n - 1])
    ensures KeepsLatest(records, n, before, at, maxSatellite)
  {
    var last := n - 1;
    LatestOfKeySteps(records, n, at, maxSatellite);
    assert LatestOfKey(records, last, kept, at, maxSatellite);
    assert Rival(records, last, kept, at, maxSatellite) && !Beats(records, last, kept);
    forall i: nat | i < last
      ensures i in before <==> LatestOfKey(records, n, i, at, maxSatellite)
    {
      if i in before && i != kept {
        assert !Rival(records, i, last, at, maxSatellite);
      }
    }
  }

  lemma SnapshotOldKey(records: seq<Record>, n: nat, before: seq<nat>, at: Time, maxSatellite: int)
    requires 0 < n <= |records| && ValidTimes(records)
    requires KeepsLatest(records, n - 1, before, at, maxSatellite)
    requires Eligible(records[n - 1], at, maxSatellite)
    requires KeyPosition(records, before, records[n - 1]) < |before|
    ensures KeepsLatest(records, n, SelectStep(records, before, n - 1, at, maxSatellite), at, maxSatellite)
  {
    var p := KeyPosition(records, before, records[n - 1]);
    var kept := before[p];
    CompareIsOrder(records[n - 1].transmit, records[kept].transmit);
    OnlyKeptHasKey(records, n, before, p);
    assert kept in before;
    assert LatestOfKey(records, n - 1, kept, at, maxSatellite);
    assert Rival(records, kept, n - 1, at, maxSatellite);
    if Beats(records, kept, n - 1) {
      BeatenKeepsLatest(records, n, before, kept, at, maxSatellite);
    } else {
      LastBeats(records, n, kept, at, maxSatellite);
      ReplacedMembers(before, p, n - 1);
      ReplacedKeepsLatest(records, n, before, p, at, maxSatellite);
    }
  }

  lemma OnlyKeptHasKey(records: seq<Record>, n: nat, before: seq<nat>, p: nat)
    requires 0 < n <= |records| && p < |before| && InRange(before, n - 1)
    requires DistinctKeys(records, before) && SameKey(records[before[p]], records[n - 1])
    ensures forall q :: 0 <= q < |before| && q != p ==>
              before[q] != before[p] && !SameKey(records[before[q]], records[n - 1])
    ensures forall i :: i in before && i != before[p] ==> !SameKey(records[i], records[n - 1])
  {
    forall q | 0 <= q < |before| && q != p
      ensures !SameKey(records[before[q]], records[n - 1])
    {
      if q < p {
        assert !SameKey(records[before[q]], records[before[p]]);
      } else {
        assert !SameKey(records[before[p]], records[before[q]]);
      }
    }
  }

  lemma ReplacedMembers(before: seq<nat>, p: nat, x: nat)
    requires p < |before| && forall q :: 0 <= q < |before| && q != p ==> before[q] != before[p]
    ensures forall i :: i in before[p := x] <==> (i in before && i != before[p]) || i == x
  {
    var after := before[p := x];
    forall i
      ensures i in after <==> (i in before && i != before[p]) || i == x
    {
      if i in after {
        var q :| 0 <= q < |after| && after[q] == i;
        assert q != p ==> before[q] == i;
      }
      if i == x {
        assert after[p] == i;
      } else if i in before && i != before[p] {
        var q :| 0 <= q < |before| && before[q] == i;
        assert after[q] == i;
      }
    }
  }

  /** Putting the last record in the place of the one it beats keeps the selection right. */
  lemma ReplacedKeepsLatest(records: seq<Record>, n: nat, before: seq<nat>, p: nat, at: Time, maxSatellite: int)
    requires 0 < n <= |records| && p < |before| && ValidTimes(records)
    requires KeepsLatest(records, n - 1, before, at, maxSatellite)
    requires LatestOfKey(records, n, n - 1, at, maxSatellite)
    requires Rival(records, before[p], n - 1, at, maxSatellite) && !Beats(records, before[p], n - 1)
    requires forall q :: 0 <= q < |before| && q != p ==> !SameKey(records[before[q]], records[n - 1])
    requires forall i :: i in before && i != before[p] ==> !SameKey(records[i], records[n - 1])
    requires forall i :: i in before[p := n - 1] <==> (i in before && i != before[p]) || i == n - 1
    ensures KeepsLatest(records, n, before[p := n - 1], at, maxSatellite)
  {
    var after := before[p := n - 1];
    LatestOfKeySteps(records, n, at, maxSatellite);
    forall i: nat | i < n
      ensures i in after <==> LatestOfKey(records, n, i, at, maxSatellite)
    {
      if i < n - 1 && i in before {
        assert LatestOfKey(records, n - 1, i, at, maxSatellite);
      }
    }
    forall q, r | 0 <= q < r < |after|
      ensures !SameKey(records[after[q]], records[after[r]])
    {
      assert !SameKey(records[before[q]], records[before[r]]);
      assert q != p ==> !SameKey(records[before[q]], records[n - 1]);
      assert r != p ==> !SameKey(records[before[r]], records[n - 1]);
    }
  }

  function Pick(records: seq<Record>, indices: seq<nat>): seq<Record>
    requires InRange(indices, |records|)
  {
    seq(|indices|, p requires 0 <= p < |indices| => records[indices[p]])
  }

  function AvailableOnly(records: seq<Record>, at: Time): seq<Record> {
    if records == [] then []
    else
      var init := AvailableOnly(records[..|records| - 1], at);
      var last := records[|records| - 1];
      if Compare(last.transmit, at) <= 0 then init + [last] else init
  }

  /** What a HOT or WARM start copies from the truth store. */
  function Snapshot(source: Store, at: Time, maxSatellite: int): Store {
    Store(
      Pick(source.eph, Selected(source.eph, |source.eph|, at, maxSatellite)),
      Pick(source.geph, Selected(source.geph, |source.geph|, at, maxSatellite)),
      AvailableOnly(source.ion, at))
  }

  method CopySnapshot(source: Store, at: Time, maxSatellite: int) returns (destination: Store)
    ensures destination == Snapshot(source, at, maxSatellite)
  {
    var selectedEph := SelectLatest(source.eph, at, maxSatellite);
    var selectedGeph := SelectLatest(source.geph, at, maxSatellite);
    var eph := AppendPicked(source.eph, selectedEph);
    var geph := AppendPicked(source.geph, selectedGeph);
    var ion := [];
    for i := 0 to |source.ion|
      invariant ion == AvailableOnly(source.ion[..i], at)
    {
      assert source.ion[..i + 1][..i] == source.ion[..i];
      if Compare(source.ion[i].transmit, at) <= 0 {
        ion := ion + [source.ion[i]];
      }
    }
    assert source.ion[..|source.ion|] == source.ion;
    destination := Store(eph, geph, ion);
  }

  method AppendPicked(records: seq<Record>, indices: seq<nat>) returns (r: seq<Record>)
    requires InRange(indices, |records|)
    ensures r == Pick(records, indices)
  {
    r := [];
    for p := 0 to |indices|
      invariant r == Pick(records, indices[..p])
    {
      r := r + [records[indices[p]]];
    }
    assert indices[..|indices|] == indices;
  }

  lemma SnapshotIsTyped(source: Store, at: Time, maxSatellite: int)
    requires Typed(source)
    ensures Typed(Snapshot(source, at, maxSatellite))
  {
    AvailableOnlySubset(source.ion, at);
  }

  /** The records at the indices taken, in ascending order. */
  ghost predicate TakesAvailable(records: seq<Record>, taken: seq<nat>, at: Time) {
    && InRange(taken, |records|)
    && (forall p, q :: 0 <= p < q < |taken| ==> taken[p] < taken[q])
    && forall i: nat :: i < |records| ==> (i in taken <==> Compare(records[i].transmit, at) <= 0)
  }

  lemma TakesOneMore(records: seq<Record>, before: seq<nat>, after: seq<nat>, at: Time)
    requires |records| > 0 && TakesAvailable(records[..|records| - 1], before, at)
    requires after == if Compare(records[|records| - 1].transmit, at) <= 0 then before + [|records| - 1] else before
    ensures TakesAvailable(records, after, at)
  {
    var last := |records| - 1;
    forall i: nat | i < |records|
      ensures i in after <==> Compare(records[i].transmit, at) <= 0
    {
      assert i < last ==> records[..last][i] == records[i];
    }
  }

  /** The ionosphere records of a snapshot are those available, each once, in the order of the file. */
  lemma {:induction false} AvailableOnlyInOrder(records: seq<Record>, at: Time) returns (taken: seq<nat>)
    ensures TakesAvailable(records, taken, at) && AvailableOnly(records, at) == Pick(records, taken)
  {
    if records == [] {
      taken := [];
    } else {
      var init, last := records[..|records| - 1], records[|records| - 1];
      var before := AvailableOnlyInOrder(init, at);
      taken := if Compare(last.transmit, at) <= 0 then before + [|records| - 1] else before;
      TakesOneMore(records, before, taken, at);
      assert Pick(records, before) == Pick(init, before);
    }
  }

  lemma {:induction false} AvailableOnlySubset(records: seq<Record>, at: Time)
    ensures forall r :: r in AvailableOnly(records, at) <==> r in records && Compare(r.transmit, at) <= 0
  {
    if records != [] {
      var init, last := records[..|records| - 1], records[|records| - 1];
      AvailableOnlySubset(init, at);
      assert records == init + [last];
    }
  }
}
