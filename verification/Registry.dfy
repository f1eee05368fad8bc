/** The lease registry: which services are offered, and for how much longer. */
module Registry {
  import opened Wrappers
  import opened Bytes
  import opened Sd

  const TTL_FOREVER := 0x00FF_FFFF
  const TTL_STOP := 0

  /** Service id in the high half, instance id in the low half. */
  type Key = u32

  function KeyOf(serviceId: u16, instanceId: u16): (k: Key)
    ensures k / 0x1_0000 == serviceId && k % 0x1_0000 == instanceId
  {
    serviceId as int * 0x1_0000 + instanceId
  }

  datatype Record = Record(endpoint: Option<SdOption>, events: Option<SdOption>, expiresAt: int, forever: bool)

  datatype Availability = Unchanged | Available | Unavailable

  type Records = map<Key, Record>

  /** The last endpoint and the last multicast group an offer names. */
  function Pick(options: seq<SdOption>, kind: OptionType): Option<SdOption> {
    if options == [] then None
    else if options[|options| - 1].kind == kind then Some(options[|options| - 1])
    else Pick(options[..|options| - 1], kind)
  }

  function RecordOf(e: Entry, now: int): Record {
    Record(Pick(e.options, Ipv4Endpoint), Pick(e.options, Ipv4Multicast), now + e.ttl, e.ttl == TTL_FOREVER)
  }

  function Observed(r: Records, e: Entry, now: int): Records {
    var k := KeyOf(e.serviceId, e.instanceId);
    if e.kind != OfferService then r
    else if e.ttl == TTL_STOP then r - {k}
    else r[k := RecordOf(e, now)]
  }

  function Report(r: Records, e: Entry): Availability {
    var k := KeyOf(e.serviceId, e.instanceId);
    if e.kind != OfferService || (e.ttl == TTL_STOP) == (k !in r) then Unchanged
    else if e.ttl == TTL_STOP then Unavailable else Available
  }

  predicate Lapsed(rec: Record, now: int) { !rec.forever && rec.expiresAt <= now }

  function StillHeld(r: Records, now: int): Records {
    map k | k in r && !Lapsed(r[k], now) :: r[k]
  }

  function LapsedBelow(r: Records, now: int, k: nat): seq<Key>
    requires k <= 0x1_0000_0000
  {
    if k == 0 then []
    else if k - 1 in r && Lapsed(r[k - 1], now) then LapsedBelow(r, now, k - 1) + [k - 1]
    else LapsedBelow(r, now, k - 1)
  }

  /** The leases that ran out, in key order. */
  function LapsedKeys(r: Records, now: int): seq<Key> { LapsedBelow(r, now, 0x1_0000_0000) }

  lemma {:induction false} LapsedBelowAre(r: Records, now: int, k: nat)
    requires k <= 0x1_0000_0000
    ensures forall x :: x in LapsedBelow(r, now, k) <==> x in r && x < k && Lapsed(r[x], now)
    ensures (forall x :: x in r ==> !Lapsed(r[x], now)) ==> LapsedBelow(r, now, k) == []
    ensures forall i, j :: 0 <= i < j < |LapsedBelow(r, now, k)| ==> LapsedBelow(r, now, k)[i] < LapsedBelow(r, now, k)[j]
  {
    if k == 0 {
    } else {
      LapsedBelowAre(r, now, k - 1);
      var before := LapsedBelow(r, now, k - 1);
      assert forall i :: 0 <= i < |before| ==> before[i] in before;
    }
  }

  class ServiceRegistry {
    var records: Records

    constructor ()
      ensures records == map[]
    {
      records := map[];
    }

    method Observe(e: Entry, now: int) returns (a: Availability)
      modifies this
      ensures records == Observed(old(records), e, now) && a == Report(old(records), e)
    {
      if e.kind != OfferService {
        return Unchanged;
      }
      var key := KeyOf(e.serviceId, e.instanceId);
      var known := key in records;
      if e.ttl == TTL_STOP {
        if !known {
          assert records - {key} == records;
          return Unchanged;
        }
        records := records - {key};
        return Unavailable;
      }
      var record := Record(None, None, now + e.ttl, e.ttl == TTL_FOREVER);
      for i := 0 to |e.options|
        invariant record == RecordOf(e.(options := e.options[..i]), now)
      {
        assert e.options[..i + 1][..i] == e.options[..i];
        var option := e.options[i];
        if option.kind == Ipv4Multicast {
          record := record.(events := Some(option));
        } else {
          record := record.(endpoint := Some(option));
        }
      }
      assert e.options[..|e.options|] == e.options;
      records := records[key := record];
      a := if known then Unchanged else Available;
    }

    method Expire(now: int) returns (changes: seq<Key>)
      modifies this
      ensures records == StillHeld(old(records), now) && changes == LapsedKeys(old(records), now)
    {
      changes := [];
      ghost var was := records;
      for k := 0 to 0x1_0000_0000
        invariant changes == LapsedBelow(was, now, k)
        invariant records.Keys == set x | x in was && !(x < k && Lapsed(was[x], now))
        invariant forall x :: x in records ==> records[x] == was[x]
      {
        if k in records && !records[k].forever && records[k].expiresAt <= now {
          changes := changes + [k];
          records := records - {k};
        }
      }
    }
  }

  // ---- what a history of messages and expiries amounts to ----------------------------------

  datatype Happening = Heard(entry: Entry, now: int) | Swept(now: int)

  function After(history: seq<Happening>): Records
  {
    if history == [] then map[]
    else
      var r := After(history[..|history| - 1]);
      match history[|history| - 1]
      case Heard(e, now) => Observed(r, e, now)
      case Swept(now) => StillHeld(r, now)
  }

  predicate OffersKey(h: Happening, k: Key) {
    h.Heard? && h.entry.kind == OfferService && KeyOf(h.entry.serviceId, h.entry.instanceId) == k
  }

  /** The lease that `offer` grants is still running at `sweep`. */
  predicate Survives(offer: Happening, sweep: Happening)
    requires offer.Heard?
  {
    sweep.Swept? ==> offer.entry.ttl == 0xFF_FFFF || sweep.now < offer.now + offer.entry.ttl
  }

  /** `i` is the latest offer for `k`; it is no StopOffer, and no sweep since has found its lease over. */
  predicate LeaseHolds(history: seq<Happening>, k: Key, i: int) {
    && 0 <= i < |history| && OffersKey(history[i], k) && history[i].entry.ttl != 0
    && forall j :: i < j < |history| ==> !OffersKey(history[j], k) && Survives(history[i], history[j])
  }

  lemma LeaseStep(history: seq<Happening>, k: Key, i: int)
    requires |history| >= 2
    ensures var n := |history| - 1;
            LeaseHolds(history, k, i) <==>
              if i == n then OffersKey(history[n], k) && history[n].entry.ttl != 0
              else LeaseHolds(history[..n], k, i) && !OffersKey(history[n], k) && Survives(history[i], history[n])
  {
    var n := |history| - 1;
    assert forall j :: 0 <= j < n ==> history[..n][j] == history[j];
    if 0 <= i < n && LeaseHolds(history[..n], k, i) && !OffersKey(history[n], k) && Survives(history[i], history[n]) {
      forall j | i < j < |history| ensures !OffersKey(history[j], k) && Survives(history[i], history[j]) {
        if j < n {
          assert history[..n][j] == history[j];
        }
      }
    }
  }

  predicate LastAt(options: seq<SdOption>, kind: OptionType, o: SdOption, i: nat) {
    && i < |options| && options[i] == o && o.kind == kind
    && forall j :: i < j < |options| ==> options[j].kind != kind
  }

  /** `picked` is the last option of this kind, if there is one. */
  ghost predicate IsLast(options: seq<SdOption>, kind: OptionType, picked: Option<SdOption>) {
    match picked
    case None => forall i :: 0 <= i < |options| ==> options[i].kind != kind
    case Some(o) => exists i: nat :: LastAt(options, kind, o, i)
  }

  lemma StillLast(options: seq<SdOption>, next: SdOption, kind: OptionType, picked: Option<SdOption>)
    requires IsLast(options, kind, picked)
    ensures IsLast(options + [next], kind, if next.kind == kind then Some(next) else picked)
  {
    if next.kind == kind {
      assert LastAt(options + [next], kind, next, |options|);
    } else if picked.Some? {
      var i: nat :| LastAt(options, kind, picked.value, i);
      assert LastAt(options + [next], kind, picked.value, i);
    }
  }

  lemma {:induction false} PickIsLast(options: seq<SdOption>, kind: OptionType)
    ensures IsLast(options, kind, Pick(options, kind))
    decreases |options|
  {
    hide IsLast;
    if options == [] {
      NoneIsLast(kind);
    } else {
      var before, next := options[..|options| - 1], options[|options| - 1];
      PickIsLast(before, kind);
      StillLast(before, next, kind, Pick(before, kind));
      assert before + [next] == options;
    }
  }

  lemma NoneIsLast(kind: OptionType)
    ensures IsLast([], kind, None)
  {
  }

  /** A service is held exactly while its latest offer's lease holds, and under that offer's terms: the
      end of its time to live, and the last method endpoint and the last event group that it names. */
  lemma HeldExactlyWhileLeased(history: seq<Happening>, k: Key) returns (i: int)
    ensures k in After(history) ==>
              && LeaseHolds(history, k, i)
              && var rec, offer := After(history)[k], history[i];
                 && rec.expiresAt == offer.now + offer.entry.ttl && (rec.forever <==> offer.entry.ttl == 0xFF_FFFF)
                 && IsLast(offer.entry.options, Ipv4Endpoint, rec.endpoint) && IsLast(offer.entry.options, Ipv4Multicast, rec.events)
    ensures k !in After(history) ==> forall j :: !LeaseHolds(history, k, j)
  {
    i := HeldByItsOffer(history, k);
    if k in After(history) {
      PickIsLast(history[i].entry.options, Ipv4Endpoint);
      PickIsLast(history[i].entry.options, Ipv4Multicast);
    }
    hide Pick, IsLast, After, LeaseHolds;
  }

  lemma {:induction false} HeldByItsOffer(history: seq<Happening>, k: Key) returns (i: int)
    ensures k in After(history) ==> LeaseHolds(history, k, i) && After(history)[k] == RecordOf(history[i].entry, history[i].now)
    ensures k !in After(history) ==> forall j :: !LeaseHolds(history, k, j)
    decreases |history|
  {
    i := -1;
    if history == [] {
    } else {
      var n := |history| - 1;
      var last, before := history[n], history[..n];
      i := HeldByItsOffer(before, k);
      if OffersKey(last, k) {
        i := n;
      }
      if n > 0 {
        forall j ensures LeaseHolds(history, k, j) <==>
                         if j == n then OffersKey(last, k) && last.entry.ttl != 0
                         else LeaseHolds(before, k, j) && !OffersKey(last, k) && Survives(history[j], last)
        {
          LeaseStep(history, k, j);
        }
        if k !in After(history) && k in After(before) && last.Swept? {
          forall j ensures !LeaseHolds(history, k, j) {
            if j < n && LeaseHolds(before, k, j) {
              LatestIsUnique(before, k, i, j);
            }
          }
        }
      }
    }
  }

  lemma LatestIsUnique(history: seq<Happening>, k: Key, i: int, j: int)
    requires LeaseHolds(history, k, i) && LeaseHolds(history, k, j)
    ensures i == j
  {
  }

  /** What a listener for `k` is told, in order: `true` for Available. */
  function Told(history: seq<Happening>, k: Key): seq<bool> {
    if history == [] then []
    else
      var before := history[..|history| - 1];
      var r := After(before);
      Told(before, k) + match history[|history| - 1]
                        case Heard(e, now) =>
                          if KeyOf(e.serviceId, e.instanceId) != k then []
                          else (match Report(r, e) case Unchanged => [] case Available => [true] case Unavailable => [false])
                        case Swept(now) => if k in r && Lapsed(r[k], now) then [false] else []
  }

  /** The news strictly alternates, beginning with Available, and the last piece of it is right. */
  lemma {:induction false} NewsAlternates(history: seq<Happening>, k: Key)
    ensures forall i :: 0 <= i < |Told(history, k)| ==> Told(history, k)[i] == (i % 2 == 0)
    ensures k in After(history) <==> |Told(history, k)| % 2 == 1
    decreases |history|
  {
    if history == [] {
    } else {
      NewsAlternates(history[..|history| - 1], k);
    }
  }
}
