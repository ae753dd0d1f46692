/**
 Merging DNS observations into one lease per address, and the egress rule that reads the leases.
 Instants and lifetimes are in microseconds and seconds, as the source keeps them.
 */
module AddressLeases {
  import opened Wrappers

  /** An IPv4 address, numbered in the textual order by which results are sorted. */
  type Address = nat
  type Instant = int

  const MaxAddresses: nat := 32
  const MaxTtlSeconds: nat := 300

  datatype Lease = Lease(hostname: string, addresses: seq<Address>, observedAt: Instant, ttlSeconds: int)

  function Expiry(lease: Lease): Instant { lease.observedAt + lease.ttlSeconds * 1_000_000 }

  predicate Valid(lease: Lease, now: Instant) {
    0 <= now - lease.observedAt < lease.ttlSeconds * 1_000_000
  }

  /** Addresses never admitted, and those reachable on the public network. */
  datatype Scope = Scope(unsafe: set<Address>, public: set<Address>)

  predicate Distinct(addresses: seq<Address>) {
    forall i, j :: 0 <= i < j < |addresses| ==> addresses[i] != addresses[j]
  }

  /** The checks every observation passes before it is considered, live or not. */
  predicate Admitted(lease: Lease, hostname: string, scope: Scope, publicOnly: bool) {
    && lease.hostname == hostname
    && 1 <= |lease.addresses| <= MaxAddresses
    && Distinct(lease.addresses)
    && (forall i :: 0 <= i < |lease.addresses| ==>
          lease.addresses[i] !in scope.unsafe && (publicOnly ==> lease.addresses[i] in scope.public))
    && 1 <= lease.ttlSeconds <= MaxTtlSeconds
  }

  predicate Covers(lease: Lease, now: Instant, address: Address) {
    Valid(lease, now) && address in lease.addresses
  }

  ghost predicate Permits(leases: seq<Lease>, address: Address, now: Instant) {
    exists i :: 0 <= i < |leases| && Covers(leases[i], now, address)
  }

  /** The observation kept for an address: the first, among those live now, with the latest expiry. */
  function Best(values: seq<Lease>, now: Instant, address: Address): Option<Lease> {
    if values == [] then None
    else
      var before := Best(values[..|values| - 1], now, address);
      var last := values[|values| - 1];
      if Covers(last, now, address) && (before.None? || Expiry(last) > Expiry(before.value))
      then Some(last) else before
  }

  lemma {:induction false} BestIsLatest(values: seq<Lease>, now: Instant, address: Address)
    ensures Best(values, now, address).Some? <==> Permits(values, address, now)
    ensures Best(values, now, address).Some? ==>
              var best := Best(values, now, address).value;
              && best in values && Covers(best, now, address)
              && forall i :: 0 <= i < |values| && Covers(values[i], now, address)
                             ==> Expiry(values[i]) <= Expiry(best)
  {
    if values != [] {
      var init := values[..|values| - 1];
      BestIsLatest(init, now, address);
      assert forall i :: 0 <= i < |init| ==> init[i] == values[i];
      if Permits(init, address, now) {
        var i :| 0 <= i < |init| && Covers(init[i], now, address);
        assert Covers(values[i], now, address);
      }
    }
  }

  /** One lease per kept address, in address order. */
  ghost predicate Lists(result: seq<Lease>, hostname: string, values: seq<Lease>, now: Instant) {
    && (forall i :: 0 <= i < |result| ==> KeptAt(result[i], hostname, values, now))
    && (forall i, j :: 0 <= i < j < |result| ==> Sole(result[i]) < Sole(result[j]))
    && (forall address :: Best(values, now, address).Some? ==>
          exists i :: 0 <= i < |result| && Sole(result[i]) == address)
  }

  function Sole(lease: Lease): Address {
    if |lease.addresses| == 1 then lease.addresses[0] else 0
  }

  predicate KeptAt(lease: Lease, hostname: string, values: seq<Lease>, now: Instant) {
    && |lease.addresses| == 1
    && var best := Best(values, now, Sole(lease));
       best.Some? && lease == Lease(hostname, [Sole(lease)], best.value.observedAt, best.value.ttlSeconds)
  }

  predicate SameStamp(a: Option<Lease>, b: Option<Lease>) {
    && a.Some? == b.Some?
    && (a.Some? ==> a.value.observedAt == b.value.observedAt && a.value.ttlSeconds == b.value.ttlSeconds)
  }

  function StillLive(best: Option<Lease>, now: Instant): Option<Lease> {
    if best.Some? && Valid(best.value, now) then best else None
  }

  predicate NoneAhead(values: seq<Lease>, now: Instant) {
    forall i :: 0 <= i < |values| ==> values[i].observedAt <= now
  }

  /** A listing permits an address at any later instant exactly when an observation live at the merge does. */
  lemma MergeKeepsPermission(result: seq<Lease>, hostname: string, values: seq<Lease>, now: Instant,
                             address: Address, later: Instant)
    requires Lists(result, hostname, values, now) && now <= later
    ensures Permits(result, address, later)
            <==> exists i :: 0 <= i < |values| && Covers(values[i], now, address) && Valid(values[i], later)
  {
    BestIsLatest(values, now, address);
    var best := Best(values, now, address);
    if Permits(result, address, later) {
      var k :| 0 <= k < |result| && Covers(result[k], later, address);
      assert KeptAt(result[k], hostname, values, now);
      var i :| 0 <= i < |values| && values[i] == best.value;
      assert Covers(values[i], now, address) && Valid(values[i], later);
    }
    if i :| 0 <= i < |values| && Covers(values[i], now, address) && Valid(values[i], later) {
      assert Expiry(values[i]) <= Expiry(best.value);
      var k :| 0 <= k < |result| && Sole(result[k]) == address;
      assert KeptAt(result[k], hostname, values, now);
      assert Covers(result[k], later, address);
    }
  }

  /** What a listing offers for an address is what was kept for it, while that lasts. */
  lemma BestOfListing(result: seq<Lease>, hostname: string, values: seq<Lease>, now: Instant,
                      address: Address, later: Instant)
    requires Lists(result, hostname, values, now)
    ensures SameStamp(Best(result, later, address), StillLive(Best(values, now, address), later))
  {
    BestIsLatest(result, later, address);
    var best := Best(result, later, address);
    if best.Some? {
      assert KeptAt(best.value, hostname, values, now);
    } else if StillLive(Best(values, now, address), later).Some? {
      var k :| 0 <= k < |result| && Sole(result[k]) == address;
      assert KeptAt(result[k], hostname, values, now);
      assert Covers(result[k], later, address);
    }
  }

  /** Of two choices the later wins only by lasting longer. */
  function Later(first: Option<Lease>, second: Option<Lease>): Option<Lease> {
    if second.Some? && (first.None? || Expiry(second.value) > Expiry(first.value)) then second else first
  }

  lemma {:induction false} BestOfBoth(a: seq<Lease>, b: seq<Lease>, now: Instant, address: Address)
    ensures Best(a + b, now, address) == Later(Best(a, now, address), Best(b, now, address))
  {
    if b == [] {
      assert a + b == a;
    } else {
      var init := b[..|b| - 1];
      BestOfBoth(a, init, now, address);
      assert (a + b)[..|a + b| - 1] == a + init;
    }
  }

  /** Waiting only expires what was kept, unless an observation from after the merge is now the best. */
  lemma {:induction false} BestLater(values: seq<Lease>, now: Instant, later: Instant, address: Address)
    requires now <= later
    ensures var kept, best := StillLive(Best(values, now, address), later), Best(values, later, address);
            && (best.None? ==> kept.None?)
            && (best.Some? && best.value.observedAt <= now ==> kept == best)
            && (best.Some? && best.value.observedAt > now && kept.Some? ==> Expiry(kept.value) <= Expiry(best.value))
  {
    if values != [] {
      var init := values[..|values| - 1];
      BestLater(init, now, later, address);
      BestIsLatest(init, now, address);
      BestIsLatest(init, later, address);
    }
  }

  predicate Ascending(keys: seq<Address>) {
    forall i, j :: 0 <= i < j < |keys| ==> keys[i] < keys[j]
  }

  ghost function Keys(keys: seq<Address>): set<Address> { set key | key in keys }

  lemma {:induction false} AscendingIsUnique(a: seq<Address>, b: seq<Address>)
    requires Ascending(a) && Ascending(b) && Keys(a) == Keys(b)
    ensures a == b
  {
    WithoutLast(a);
    WithoutLast(b);
    if a != [] && b != [] {
      AscendingIsUnique(a[..|a| - 1], b[..|b| - 1]);
    }
  }

  lemma WithoutLast(a: seq<Address>)
    requires Ascending(a)
    ensures a == [] <==> Keys(a) == {}
    ensures a != [] ==>
              var init, last := a[..|a| - 1], a[|a| - 1];
              && a == init + [last] && Ascending(init)
              && last in Keys(a) && Keys(init) == Keys(a) - {last}
              && forall key :: key in Keys(a) ==> key <= last
  {
    if a != [] {
      var init, last := a[..|a| - 1], a[|a| - 1];
      assert a == init + [last] && last in Keys(a);
      assert last !in init;
    }
  }

  function Soles(result: seq<Lease>): (keys: seq<Address>)
    ensures |keys| == |result| && forall i :: 0 <= i < |keys| ==> keys[i] == Sole(result[i])
  {
    seq(|result|, i requires 0 <= i < |result| => Sole(result[i]))
  }

  lemma ListingKeys(result: seq<Lease>, hostname: string, values: seq<Lease>, now: Instant)
    requires Lists(result, hostname, values, now)
    ensures Ascending(Soles(result))
    ensures forall key :: key in Soles(result) <==> Best(values, now, key).Some?
  {
    forall key ensures key in Soles(result) <==> Best(values, now, key).Some? {
      if key in Soles(result) {
        var i :| 0 <= i < |result| && Soles(result)[i] == key;
        assert KeptAt(result[i], hostname, values, now);
      }
      if Best(values, now, key).Some? {
        var i :| 0 <= i < |result| && Sole(result[i]) == key;
        assert Soles(result)[i] == key;
      }
    }
  }

  /** Two listings that keep the same observation for every address are equal. */
  lemma ListingIsUnique(r: seq<Lease>, v: seq<Lease>, t: Instant, s: seq<Lease>, w: seq<Lease>, u: Instant,
                        hostname: string)
    requires Lists(r, hostname, v, t) && Lists(s, hostname, w, u)
    requires forall address :: SameStamp(Best(v, t, address), Best(w, u, address))
    ensures r == s
  {
    ListingKeys(r, hostname, v, t);
    ListingKeys(s, hostname, w, u);
    forall key ensures key in Keys(Soles(r)) <==> key in Keys(Soles(s)) {
      assert SameStamp(Best(v, t, key), Best(w, u, key));
    }
    AscendingIsUnique(Soles(r), Soles(s));
    forall i | 0 <= i < |r| ensures r[i] == s[i] {
      assert Soles(r)[i] == Soles(s)[i];
      assert KeptAt(r[i], hostname, v, t) && KeptAt(s[i], hostname, w, u);
      assert SameStamp(Best(v, t, Sole(r[i])), Best(w, u, Sole(r[i])));
    }
  }

  /** Merging a merged result again changes nothing. */
  lemma MergeIsIdempotent(once: seq<Lease>, twice: seq<Lease>, hostname: string, values: seq<Lease>, now: Instant)
    requires Lists(once, hostname, values, now) && Lists(twice, hostname, once, now)
    ensures twice == once
  {
    forall address ensures SameStamp(Best(once, now, address), Best(values, now, address)) {
      BestOfListing(once, hostname, values, now, address, now);
      BestIsLatest(values, now, address);
    }
    ListingIsUnique(twice, once, now, once, values, now, hostname);
  }

  lemma ListingDetermines(result: seq<Lease>, v: seq<Lease>, t: Instant, w: seq<Lease>, u: Instant,
                          hostname: string, address: Address)
    requires Lists(result, hostname, v, t) && Lists(result, hostname, w, u)
    ensures SameStamp(Best(v, t, address), Best(w, u, address))
  {
    ListingKeys(result, hostname, v, t);
    ListingKeys(result, hostname, w, u);
    if Best(v, t, address).Some? {
      var i :| 0 <= i < |result| && Sole(result[i]) == address;
      assert KeptAt(result[i], hostname, v, t) && KeptAt(result[i], hostname, w, u);
    }
  }

  /**
   The best early observation lies after the first merge, the new ones do not outlast it, and none of
   them says the same while what was kept has run out sooner.
   */
  predicate Forgotten(early: seq<Lease>, more: seq<Lease>, now: Instant, later: Instant, address: Address) {
    var kept, best, added := Best(early, now, address), Best(early, later, address), Best(more, later, address);
    && best.Some? && best.value.observedAt > now
    && (added.None? || Expiry(added.value) <= Expiry(best.value))
    && !(SameStamp(added, best) && (kept.None? || Expiry(kept.value) < Expiry(best.value)))
  }

  lemma StepwiseBest(early: seq<Lease>, more: seq<Lease>, merged: seq<Lease>, now: Instant, later: Instant,
                     hostname: string, address: Address)
    requires Lists(merged, hostname, early, now) && now <= later
    ensures SameStamp(Best(merged + more, later, address), Best(early + more, later, address))
            <==> !Forgotten(early, more, now, later, address)
  {
    BestOfListing(merged, hostname, early, now, address, later);
    BestLater(early, now, later, address);
    BestOfBoth(merged, more, later, address);
    BestOfBoth(early, more, later, address);
    BestIsLatest(early, now, address);
    BestIsLatest(early, later, address);
  }

  /** Feeding a merged result and newer observations gives what all give from scratch, unless one is forgotten. */
  lemma IncrementalMergeIsExact(early: seq<Lease>, more: seq<Lease>, merged: seq<Lease>, now: Instant, later: Instant,
                                stepwise: seq<Lease>, whole: seq<Lease>, hostname: string)
    requires now <= later
    requires Lists(merged, hostname, early, now)
    requires Lists(stepwise, hostname, merged + more, later)
    requires Lists(whole, hostname, early + more, later)
    ensures stepwise == whole <==> forall address :: !Forgotten(early, more, now, later, address)
    ensures NoneAhead(early, now) ==> stepwise == whole
  {
    forall address
      ensures SameStamp(Best(merged + more, later, address), Best(early + more, later, address))
              <==> !Forgotten(early, more, now, later, address)
      ensures NoneAhead(early, now) ==> !Forgotten(early, more, now, later, address)
    {
      StepwiseBest(early, more, merged, now, later, hostname, address);
      BestIsLatest(early, later, address);
    }
    if stepwise == whole {
      forall address ensures !Forgotten(early, more, now, later, address) {
        ListingDetermines(whole, merged + more, later, early + more, later, hostname, address);
      }
    } else if forall address :: !Forgotten(early, more, now, later, address) {
      ListingIsUnique(stepwise, merged + more, later, whole, early + more, later, hostname);
    }
  }

  /** An observation from the future is dropped by the first merge and missing from the second. */
  lemma FutureObservationIsLost(lease: Lease, now: Instant, later: Instant, address: Address, hostname: string)
    requires now < lease.observedAt && Covers(lease, later, address)
    ensures Lists([], hostname, [lease], now)
    ensures !Permits([], address, later) && Permits([lease], address, later)
  {
    forall other ensures Best([lease], now, other).None? {
      BestIsLatest([lease], now, other);
    }
    assert Covers([lease][0], later, address);
  }

  // ---------- the merge itself ----------

  /** The distinct addresses of all observations live at the instant. */
  ghost function LiveAddresses(values: seq<Lease>, now: Instant): set<Address> {
    set i, j | 0 <= i < |values| && Valid(values[i], now) && 0 <= j < |values[i].addresses|
      :: values[i].addresses[j]
  }

  predicate Retains(retained: map<Address, Lease>, address: Address, hostname: string, best: Option<Lease>) {
    && (address in retained <==> best.Some?)
    && (best.Some? ==> retained[address] == Lease(hostname, [address], best.value.observedAt, best.value.ttlSeconds))
  }

  /** An observation is being merged: the addresses already `done` count it, the others do not yet. */
  ghost predicate HalfRetained(retained: map<Address, Lease>, hostname: string, values: seq<Lease>, checked: Lease,
                               now: Instant, done: seq<Address>) {
    forall address :: Retains(retained, address, hostname,
                              Best(if address in done then values + [checked] else values, now, address))
  }

  function Kept(retained: map<Address, Lease>, hostname: string, checked: Lease, address: Address): map<Address, Lease> {
    if address !in retained || Expiry(checked) > Expiry(retained[address])
    then retained[address := Lease(hostname, [address], checked.observedAt, checked.ttlSeconds)]
    else retained
  }

  lemma BestWithOneMore(values: seq<Lease>, checked: Lease, now: Instant, address: Address)
    ensures Best(values + [checked], now, address)
            == var before := Best(values, now, address);
               if Covers(checked, now, address) && (before.None? || Expiry(checked) > Expiry(before.value))
               then Some(checked) else before
  {
    assert (values + [checked])[..|values|] == values;
  }

  /** One address of a live observation is kept in the same way in which the best is chosen. */
  lemma RetainOne(retained: map<Address, Lease>, hostname: string, values: seq<Lease>, checked: Lease, now: Instant, j: nat)
    requires j < |checked.addresses| && Distinct(checked.addresses) && Valid(checked, now)
    requires HalfRetained(retained, hostname, values, checked, now, checked.addresses[..j])
    ensures HalfRetained(Kept(retained, hostname, checked, checked.addresses[j]), hostname, values, checked, now,
                         checked.addresses[..j + 1])
  {
    var address := checked.addresses[j];
    assert checked.addresses[..j + 1] == checked.addresses[..j] + [address];
    var after, done := Kept(retained, hostname, checked, address), checked.addresses[..j + 1];
    forall other
      ensures Retains(after, other, hostname, Best(if other in done then values + [checked] else values, now, other))
    {
      assert Retains(retained, other, hostname,
                     Best(if other in checked.addresses[..j] then values + [checked] else values, now, other));
      if other == address { BestWithOneMore(values, checked, now, address); }
    }
  }

  lemma AllRetained(retained: map<Address, Lease>, hostname: string, values: seq<Lease>, checked: Lease, now: Instant)
    requires HalfRetained(retained, hostname, values, checked, now, checked.addresses)
    ensures forall address :: Retains(retained, address, hostname, Best(values + [checked], now, address))
  {
    forall address ensures Retains(retained, address, hostname, Best(values + [checked], now, address)) {
      assert Retains(retained, address, hostname,
                     Best(if address in checked.addresses then values + [checked] else values, now, address));
      BestWithOneMore(values, checked, now, address);
    }
  }

  predicate AllAdmitted(values: seq<Lease>, hostname: string, scope: Scope, publicOnly: bool) {
    forall i :: 0 <= i < |values| ==> Admitted(values[i], hostname, scope, publicOnly)
  }

  ghost predicate Accepts(values: seq<Lease>, now: Instant, hostname: string, scope: Scope, publicOnly: bool) {
    AllAdmitted(values, hostname, scope, publicOnly) && |LiveAddresses(values, now)| <= MaxAddresses
  }

  lemma {:induction false} NoLarger(a: set<Address>, b: set<Address>)
    requires a <= b
    ensures |a| <= |b|
  {
    if a != {} {
      var some :| some in a;
      NoLarger(a - {some}, b - {some});
    }
  }

  lemma LiveMeansPermitted(values: seq<Lease>, now: Instant, address: Address)
    ensures address in LiveAddresses(values, now) <==> Permits(values, address, now)
  {
    if i :| 0 <= i < |values| && Covers(values[i], now, address) {
      var j :| 0 <= j < |values[i].addresses| && values[i].addresses[j] == address;
    }
  }

  /** Still live from the first merge, or among the new observations. */
  predicate Lasting(early: seq<Lease>, more: seq<Lease>, now: Instant, later: Instant, address: Address) {
    StillLive(Best(early, now, address), later).Some? || Best(more, later, address).Some?
  }

  /**
   The second step counts the lasting addresses only. So it accepts whatever a merge from scratch
   accepts, and no more than that when nothing lay in the future.
   */
  lemma StepwiseAcceptance(early: seq<Lease>, more: seq<Lease>, merged: seq<Lease>, now: Instant, later: Instant,
                           hostname: string, scope: Scope, publicOnly: bool)
    requires Lists(merged, hostname, early, now) && now <= later
    requires AllAdmitted(early, hostname, scope, publicOnly) && AllAdmitted(merged, hostname, scope, publicOnly)
    ensures Accepts(merged + more, later, hostname, scope, publicOnly)
            <==> && AllAdmitted(more, hostname, scope, publicOnly)
                 && |set address | address in LiveAddresses(early + more, later)
                                   && Lasting(early, more, now, later, address)| <= MaxAddresses
    ensures Accepts(early + more, later, hostname, scope, publicOnly)
            ==> Accepts(merged + more, later, hostname, scope, publicOnly)
    ensures NoneAhead(early, now) ==>
              (Accepts(merged + more, later, hostname, scope, publicOnly)
               <==> Accepts(early + more, later, hostname, scope, publicOnly))
  {
    var stepwise, whole := LiveAddresses(merged + more, later), LiveAddresses(early + more, later);
    var counted := set address | address in whole && Lasting(early, more, now, later, address);
    forall address
      ensures address in stepwise <==> address in counted
      ensures NoneAhead(early, now) && address in whole ==> address in stepwise
    {
      LiveMeansPermitted(merged + more, later, address);
      LiveMeansPermitted(early + more, later, address);
      BestIsLatest(merged + more, later, address);
      BestIsLatest(early + more, later, address);
      BestIsLatest(early, later, address);
      BestOfBoth(merged, more, later, address);
      BestOfBoth(early, more, later, address);
      BestOfListing(merged, hostname, early, now, address, later);
      BestLater(early, now, later, address);
    }
    assert stepwise == counted && counted <= whole;
    NoLarger(counted, whole);
    if NoneAhead(early, now) { assert stepwise == whole; }
    AdmittedParts(early, more, hostname, scope, publicOnly);
    AdmittedParts(merged, more, hostname, scope, publicOnly);
  }

  lemma AdmittedParts(a: seq<Lease>, b: seq<Lease>, hostname: string, scope: Scope, publicOnly: bool)
    ensures AllAdmitted(a + b, hostname, scope, publicOnly)
            <==> AllAdmitted(a, hostname, scope, publicOnly) && AllAdmitted(b, hostname, scope, publicOnly)
  {
    if AllAdmitted(a + b, hostname, scope, publicOnly) {
      assert forall i :: 0 <= i < |a| ==> a[i] == (a + b)[i];
      assert forall i :: 0 <= i < |b| ==> b[i] == (a + b)[|a| + i];
    }
  }

  /** One observation of at most thirty-two different addresses, none of them refused, for at most five minutes. */
  predicate Acceptable(lease: Lease, hostname: string, scope: Scope, publicOnly: bool) {
    && lease.hostname == hostname && 1 <= lease.ttlSeconds <= 300
    && 1 <= |lease.addresses| <= 32
    && (forall i, j :: 0 <= i < j < |lease.addresses| ==> lease.addresses[i] != lease.addresses[j])
    && forall address :: address in lease.addresses ==>
         address !in scope.unsafe && (publicOnly ==> address in scope.public)
  }

  /** An observation by itself is accepted exactly when it is acceptable, live or not. */
  lemma OneIsAccepted(lease: Lease, now: Instant, hostname: string, scope: Scope, publicOnly: bool)
    ensures Accepts([lease], now, hostname, scope, publicOnly) <==> Acceptable(lease, hostname, scope, publicOnly)
  {
    assert [lease][0] == lease;
    if Admitted(lease, hostname, scope, publicOnly) {
      forall address | address in lease.addresses
        ensures address !in scope.unsafe && (publicOnly ==> address in scope.public)
      {
        var i :| 0 <= i < |lease.addresses| && lease.addresses[i] == address;
      }
      forall address | address in LiveAddresses([lease], now) ensures address in Keys(lease.addresses) {
        LiveMeansPermitted([lease], now, address);
      }
      NoLarger(LiveAddresses([lease], now), Keys(lease.addresses));
      KeysAreNoMore(lease.addresses);
    } else if Acceptable(lease, hostname, scope, publicOnly) {
      assert forall i :: 0 <= i < |lease.addresses| ==> lease.addresses[i] in lease.addresses;
    }
  }

  lemma {:induction false} KeysAreNoMore(keys: seq<Address>)
    ensures |Keys(keys)| <= |keys|
  {
    if keys != [] {
      var (init, last) := (keys[..|keys| - 1], keys[|keys| - 1]);
      KeysAreNoMore(init);
      assert keys == init + [last] && Keys(keys) == Keys(init) + {last};
    }
  }

  /** Merge, or refuse: exactly when an observation is malformed or too many addresses are live. */
  method MergeAddressLeases(hostname: string, values: seq<Lease>, now: Instant, scope: Scope, publicOnly: bool)
    returns (r: Result<seq<Lease>, string>)
    ensures r.Ok? <==> Accepts(values, now, hostname, scope, publicOnly)
    ensures r.Ok? ==> Lists(r.value, hostname, values, now) && AllAdmitted(r.value, hostname, scope, publicOnly)
    ensures r.Ok? ==> forall i :: 0 <= i < |r.value| ==>
                        && r.value[i].hostname == hostname && |r.value[i].addresses| == 1
                        && r.value[i].addresses[0] !in scope.unsafe
                        && (publicOnly ==> r.value[i].addresses[0] in scope.public)
                        && r.value[i].observedAt <= now < r.value[i].observedAt + r.value[i].ttlSeconds * 1_000_000
                        && 1 <= r.value[i].ttlSeconds <= 300
    ensures |values| == 1 ==> (r.Ok? <==> Acceptable(values[0], hostname, scope, publicOnly))
  {
    if |values| == 1 {
      OneIsAccepted(values[0], now, hostname, scope, publicOnly);
      assert values == [values[0]];
    }
    var kept := RetainBest(hostname, values, now, scope, publicOnly);
    if kept.None? { return Err("observation refused"); }
    var retained := kept.value;
    LiveAreRetained(retained, hostname, values, now);
    if |retained| > MaxAddresses { return Err("too many addresses"); }
    var keys := Sorted(retained.Keys);
    var result := seq(|keys|, i requires 0 <= i < |keys| && keys[i] in retained => retained[keys[i]]);
    SortedLeasesList(retained, keys, result, hostname, values, now, scope, publicOnly);
    ListedAreLive(result, hostname, values, now, scope, publicOnly);
    return Ok(result);
  }

  /** The best live observation of every address, unless one of them all is malformed. */
  method RetainBest(hostname: string, values: seq<Lease>, now: Instant, scope: Scope, publicOnly: bool)
    returns (r: Option<map<Address, Lease>>)
    ensures r.Some? <==> AllAdmitted(values, hostname, scope, publicOnly)
    ensures r.Some? ==> forall address :: Retains(r.value, address, hostname, Best(values, now, address))
  {
    var retained: map<Address, Lease> := map[];
    for i := 0 to |values|
      invariant forall k :: 0 <= k < i ==> Admitted(values[k], hostname, scope, publicOnly)
      invariant forall address :: Retains(retained, address, hostname, Best(values[..i], now, address))
    {
      var checked := values[i];
      if !Admitted(checked, hostname, scope, publicOnly) { return None; }
      ghost var longer := values[..i + 1];
      assert longer[..i] == values[..i];
      if !Valid(checked, now) { continue; }
      for j := 0 to |checked.addresses|
        invariant HalfRetained(retained, hostname, values[..i], checked, now, checked.addresses[..j])
      {
        var address := checked.addresses[j];
        RetainOne(retained, hostname, values[..i], checked, now, j);
        if address !in retained || Expiry(checked) > Expiry(retained[address]) {
          retained := retained[address := Lease(hostname, [address], checked.observedAt, checked.ttlSeconds)];
        }
      }
      assert checked.addresses[..|checked.addresses|] == checked.addresses;
      AllRetained(retained, hostname, values[..i], checked, now);
      assert longer == values[..i] + [checked];
    }
    assert values[..|values|] == values;
    return Some(retained);
  }

  lemma ListedAreLive(result: seq<Lease>, hostname: string, values: seq<Lease>, now: Instant, scope: Scope, publicOnly: bool)
    requires Lists(result, hostname, values, now) && AllAdmitted(result, hostname, scope, publicOnly)
    ensures forall i :: 0 <= i < |result| ==>
              && result[i].hostname == hostname && |result[i].addresses| == 1
              && result[i].addresses[0] !in scope.unsafe
              && (publicOnly ==> result[i].addresses[0] in scope.public)
              && result[i].observedAt <= now < result[i].observedAt + result[i].ttlSeconds * 1_000_000
              && 1 <= result[i].ttlSeconds <= 300
  {
    forall i | 0 <= i < |result|
      ensures |result[i].addresses| == 1 && result[i].hostname == hostname
              && result[i].observedAt <= now < result[i].observedAt + result[i].ttlSeconds * 1_000_000
    {
      assert KeptAt(result[i], hostname, values, now);
      BestIsLatest(values, now, Sole(result[i]));
    }
  }

  lemma LiveAreRetained(retained: map<Address, Lease>, hostname: string, values: seq<Lease>, now: Instant)
    requires forall address :: Retains(retained, address, hostname, Best(values, now, address))
    ensures retained.Keys == LiveAddresses(values, now) && |retained| == |LiveAddresses(values, now)|
  {
    forall address ensures address in retained <==> address in LiveAddresses(values, now) {
      assert Retains(retained, address, hostname, Best(values, now, address));
      BestIsLatest(values, now, address);
      if address in LiveAddresses(values, now) {
        var i, j :| 0 <= i < |values| && Valid(values[i], now) && 0 <= j < |values[i].addresses|
                    && values[i].addresses[j] == address;
        assert Covers(values[i], now, address);
      }
    }
    assert |retained| == |retained.Keys|;
  }

  method Sorted(keys: set<Address>) returns (sorted: seq<Address>)
    ensures Ascending(sorted) && forall key :: key in sorted <==> key in keys
  {
    sorted := [];
    var rest := keys;
    while rest != {}
      invariant rest <= keys && Ascending(sorted)
      invariant forall key :: key in keys <==> key in rest || key in sorted
      invariant forall i, key :: 0 <= i < |sorted| && key in rest ==> sorted[i] < key
      decreases rest
    {
      ghost var first := Least(rest);
      var least :| least in rest && forall key :: key in rest ==> least <= key;
      rest, sorted := rest - {least}, sorted + [least];
    }
  }

  lemma SortedLeasesList(retained: map<Address, Lease>, keys: seq<Address>, result: seq<Lease>, hostname: string,
                         values: seq<Lease>, now: Instant, scope: Scope, publicOnly: bool)
    requires forall address :: Retains(retained, address, hostname, Best(values, now, address))
    requires forall i :: 0 <= i < |values| ==> Admitted(values[i], hostname, scope, publicOnly)
    requires Ascending(keys) && forall key :: key in keys <==> key in retained
    requires |result| == |keys| && forall i :: 0 <= i < |keys| ==> result[i] == retained[keys[i]]
    ensures Lists(result, hostname, values, now)
    ensures forall i :: 0 <= i < |result| ==> Admitted(result[i], hostname, scope, publicOnly)
  {
    forall i | 0 <= i < |result|
      ensures KeptAt(result[i], hostname, values, now) && Sole(result[i]) == keys[i]
      ensures Admitted(result[i], hostname, scope, publicOnly)
    {
      assert Retains(retained, keys[i], hostname, Best(values, now, keys[i]));
      BestIsLatest(values, now, keys[i]);
      var k :| 0 <= k < |values| && values[k] == Best(values, now, keys[i]).value;
    }
    forall address | Best(values, now, address).Some?
      ensures exists i :: 0 <= i < |result| && Sole(result[i]) == address
    {
      assert Retains(retained, address, hostname, Best(values, now, address));
      assert address in keys;
      var i :| 0 <= i < |keys| && keys[i] == address;
      assert Sole(result[i]) == address;
    }
  }

  lemma {:induction false} Least(keys: set<Address>) returns (least: Address)
    requires keys != {}
    ensures least in keys && forall key :: key in keys ==> least <= key
  {
    var some :| some in keys;
    var others := keys - {some};
    if others == {} {
      assert keys == {some};
      least := some;
    } else {
      var next := Least(others);
      least := if some < next then some else next;
      forall key | key in keys ensures least <= key {
        assert key == some || key in others;
      }
    }
  }

  // ---------- the egress rule ----------

  datatype EgressPolicy = EgressPolicy(context: seq<Lease>, smtp: Lease, smtpPort: int)

  ghost predicate PermitsTarget(policy: EgressPolicy, role: string, destination: Address, port: int, now: Instant) {
    if role == "worker" then port == policy.smtpPort && Covers(policy.smtp, now, destination)
    else role == "context-fetcher" && port == 443 && Permits(policy.context, destination, now)
  }

  /** Replacing one host's past observations by their merge never changes what may be reached from then on. */
  lemma MergedPolicyPermitsTheSame(policy: EgressPolicy, before: seq<Lease>, values: seq<Lease>, after: seq<Lease>,
                                   merged: seq<Lease>, hostname: string, now: Instant,
                                   role: string, destination: Address, port: int, later: Instant)
    requires Lists(merged, hostname, values, now) && NoneAhead(values, now) && now <= later
    ensures PermitsTarget(policy.(context := before + merged + after), role, destination, port, later)
            <==> PermitsTarget(policy.(context := before + values + after), role, destination, port, later)
  {
    PermitsParts(before, merged, after, destination, later);
    PermitsParts(before, values, after, destination, later);
    MergeKeepsPermission(merged, hostname, values, now, destination, later);
    if Permits(values, destination, later) {
      var i :| 0 <= i < |values| && Covers(values[i], later, destination);
      assert Covers(values[i], now, destination) && Valid(values[i], later);
    }
  }

  /** Mail goes to the mail port of the mail host, context to port 443 of its hosts, and nothing goes anywhere else. */
  lemma EgressIsNarrow(policy: EgressPolicy, role: string, destination: Address, port: int, now: Instant)
    ensures PermitsTarget(policy, role, destination, port, now) <==>
              || (&& role == "worker" && port == policy.smtpPort && destination in policy.smtp.addresses
                  && policy.smtp.observedAt <= now < policy.smtp.observedAt + policy.smtp.ttlSeconds * 1_000_000)
              || (&& role == "context-fetcher" && port == 443
                  && exists lease :: lease in policy.context && destination in lease.addresses
                                     && lease.observedAt <= now < lease.observedAt + lease.ttlSeconds * 1_000_000)
  {
    assert "worker" != "context-fetcher" by { assert "worker"[0] == 'w' && "context-fetcher"[0] == 'c'; }
    if lease :| lease in policy.context && destination in lease.addresses
                && lease.observedAt <= now < lease.observedAt + lease.ttlSeconds * 1_000_000 {
      var i :| 0 <= i < |policy.context| && policy.context[i] == lease;
      assert Covers(policy.context[i], now, destination);
    }
  }

  lemma PermitsParts(a: seq<Lease>, b: seq<Lease>, c: seq<Lease>, address: Address, now: Instant)
    ensures Permits(a + b + c, address, now)
            <==> Permits(a, address, now) || Permits(b, address, now) || Permits(c, address, now)
  {
    var all := a + b + c;
    if i :| 0 <= i < |a| && Covers(a[i], now, address) { assert all[i] == a[i]; }
    if i :| 0 <= i < |b| && Covers(b[i], now, address) { assert all[|a| + i] == b[i]; }
    if i :| 0 <= i < |c| && Covers(c[i], now, address) { assert all[|a| + |b| + i] == c[i]; }
  }
}
