/** Router mode's account pool: round-robin picks over two scopes of cooldown. */
module Accounts {
  import opened Sequences

  datatype Account = Account(slug: string, url: string)

  /** How long a failing account is skipped, in milliseconds. */
  const COOLDOWN: nat := 60_000

  /** The pool at one moment: until when accounts, and account-model pairs, are cooling. */
  datatype View = View(accounts: seq<Account>, cooldownUntil: map<string, nat>,
                       modelCooldownUntil: map<(string, string), nat>)

  predicate DistinctSlugs(accounts: seq<Account>) {
    forall i, j :: 0 <= i < j < |accounts| ==> accounts[i].slug != accounts[j].slug
  }

  predicate Cooling(v: View, slug: string, now: nat) {
    slug in v.cooldownUntil && v.cooldownUntil[slug] > now
  }

  predicate Gated(v: View, slug: string, model: string, now: nat) {
    model != "" && (slug, model) in v.modelCooldownUntil && v.modelCooldownUntil[(slug, model)] > now
  }

  /** A pick that avoids the excluded account and a tier gate. */
  predicate Permitted(v: View, slug: string, exclude: Option<string>, model: string, now: nat) {
    exclude != Some(slug) && !Gated(v, slug, model, now)
  }

  predicate Healthy(v: View, slug: string, exclude: Option<string>, model: string, now: nat) {
    Permitted(v, slug, exclude, model, now) && !Cooling(v, slug, now)
  }

  /** The first account in rotation order from `start + i` whose slug is in `wanted`. */
  function FirstOf(accounts: seq<Account>, start: nat, i: nat, wanted: set<string>): Option<Account>
    decreases |accounts| - i
  {
    if i >= |accounts| then None
    else
      var a := accounts[(start + i) % |accounts|];
      if a.slug in wanted then Some(a) else FirstOf(accounts, start, i + 1, wanted)
  }

  function HealthyOnes(v: View, exclude: Option<string>, model: string, now: nat): set<string> {
    set a | a in v.accounts && Healthy(v, a.slug, exclude, model, now) :: a.slug
  }

  function PermittedOnes(v: View, exclude: Option<string>, model: string, now: nat): set<string> {
    set a | a in v.accounts && Permitted(v, a.slug, exclude, model, now) :: a.slug
  }

  /** The account that the holder of `ticket` is given. */
  function Choice(v: View, ticket: nat, exclude: Option<string>, model: string, now: nat): Option<Account> {
    var healthy := FirstOf(v.accounts, ticket, 0, HealthyOnes(v, exclude, model, now));
    var permitted := FirstOf(v.accounts, ticket, 0, PermittedOnes(v, exclude, model, now));
    if healthy.Some? then healthy
    else if permitted.Some? then permitted
    else if v.accounts == [] then None
    else Some(v.accounts[0])
  }

  /** The pinned account, unless it is unknown, cooling or gated for the model. */
  function Pinned(v: View, slug: string, model: string, now: nat): Option<Account> {
    if Cooling(v, slug, now) || Gated(v, slug, model, now) then None else Find(v.accounts, slug)
  }

  function Find(accounts: seq<Account>, slug: string): (r: Option<Account>)
    ensures r.Some? ==> r.value in accounts && r.value.slug == slug
    ensures r.None? <==> forall a :: a in accounts ==> a.slug != slug
  {
    if accounts == [] then None
    else if accounts[0].slug == slug then Some(accounts[0])
    else Find(accounts[1..], slug)
  }

  /** The pool after a failure of `slug`: the account cools, or after a tier gate the account-model
      pair, if the request named a model. */
  function Cool(v: View, slug: string, model: string, tierGate: bool, now: nat): View {
    if !tierGate then v.(cooldownUntil := v.cooldownUntil[slug := now + COOLDOWN])
    else if model == "" then v
    else v.(modelCooldownUntil := v.modelCooldownUntil[(slug, model) := now + COOLDOWN])
  }

  // ---- the pool object -----------------------------------------------------------

  /** Whether some record for `key` is less than the cooldown old. */
  ghost predicate RecordedWithin<K(!new)>(records: seq<(K, nat)>, key: K, now: nat) {
    exists k :: 0 <= k < |records| && records[k].0 == key && now < records[k].1 + COOLDOWN
  }

  /** The deadlines left by the records, each one overwriting the last for its key. */
  ghost function Table<K(!new)>(records: seq<(K, nat)>): map<K, nat> {
    if records == [] then map[] else Table(Init(records))[Last(records).0 := Last(records).1 + COOLDOWN]
  }

  ghost predicate InOrder<K>(records: seq<(K, nat)>) {
    forall i, j :: 0 <= i < j < |records| ==> records[i].1 <= records[j].1
  }

  /** The table says "cooling" exactly when a record is less than the cooldown old. */
  lemma {:induction false} TableRefinesHistory<K(!new)>(records: seq<(K, nat)>, key: K, now: nat)
    requires InOrder(records)
    ensures (key in Table(records) && Table(records)[key] > now) <==> RecordedWithin(records, key, now)
  {
    if records != [] {
      var last, n := Last(records), |records| - 1;
      assert forall k :: 0 <= k < n ==> Init(records)[k] == records[k] && records[k].1 <= last.1;
      TableRefinesHistory(Init(records), key, now);
      if RecordedWithin(records, key, now) {
        var k :| 0 <= k < |records| && records[k].0 == key && now < records[k].1 + COOLDOWN;
        if last.0 != key {
          assert Init(records)[k] == records[k];
        }
      } else {
        assert !(records[n].0 == key && now < records[n].1 + COOLDOWN);
      }
    }
  }

  lemma OneMoreRecord<K(!new)>(records: seq<(K, nat)>, key: K, now: nat)
    ensures var more := records + [(key, now)];
            && Table(more) == Table(records)[key := now + COOLDOWN] && Last(more) == (key, now)
            && (InOrder(records) && (records != [] ==> Last(records).1 <= now) ==> InOrder(more))
  {
    Snoc(records, (key, now));
  }

  lemma GateIsScoped(v: View, slug: string, model: string, now: nat)
    ensures forall m, s, t :: m != model || s != slug ==>
              Gated(Cool(v, slug, model, true, now), s, m, t) == Gated(v, s, m, t)
  {
  }

  class AccountPool {
    const accounts: seq<Account>
    var next: nat
    var cooldownUntil: map<string, nat>
    var modelCooldownUntil: map<(string, string), nat>
    /** Every cooldown recorded so far, oldest first. */
    ghost var failures: seq<(string, nat)>
    ghost var gates: seq<((string, string), nat)>

    ghost predicate Valid()
      reads this
    {
      && cooldownUntil == Table(failures) && InOrder(failures)
      && modelCooldownUntil == Table(gates) && InOrder(gates)
      && forall k :: k in modelCooldownUntil ==> k.1 != ""
    }

    /** The clock, at `now`, has not gone back behind a recorded cooldown. */
    ghost predicate NotBefore(now: nat)
      reads this
    {
      (failures != [] ==> Last(failures).1 <= now) && (gates != [] ==> Last(gates).1 <= now)
    }

    ghost function State(): View
      reads this
    {
      View(accounts, cooldownUntil, modelCooldownUntil)
    }

    constructor (accounts: seq<Account>)
      ensures Valid() && this.accounts == accounts && next == 0 && failures == [] && gates == []
    {
      this.accounts := accounts;
      next, cooldownUntil, modelCooldownUntil := 0, map[], map[];
      failures, gates := [], [];
    }

    /** Cooling exactly when a failure of the account was recorded less than the cooldown ago. */
    predicate IsCooling(slug: string, now: nat)
      requires Valid()
      reads this
      ensures IsCooling(slug, now) == Cooling(State(), slug, now)
      ensures IsCooling(slug, now) <==> RecordedWithin(failures, slug, now)
    {
      TableRefinesHistory(failures, slug, now);
      slug in cooldownUntil && cooldownUntil[slug] > now
    }

    predicate IsModelCooling(slug: string, model: string, now: nat)
      requires Valid()
      reads this
      ensures IsModelCooling(slug, model, now) == Gated(State(), slug, model, now)
      ensures IsModelCooling(slug, model, now) <==> RecordedWithin(gates, (slug, model), now)
    {
      TableRefinesHistory(gates, (slug, model), now);
      model != "" && (slug, model) in modelCooldownUntil && modelCooldownUntil[(slug, model)] > now
    }

    /** The account of a pin, if it may be used for `model` now. */
    method PinnedAccount(slug: string, model: string, now: nat) returns (r: Option<Account>)
      requires Valid()
      ensures r == Pinned(State(), slug, model, now)
      ensures r.Some? <==>
                && (exists a :: a in accounts && a.slug == slug)
                && !RecordedWithin(failures, slug, now) && !RecordedWithin(gates, (slug, model), now)
      ensures r.Some? ==> r.value in accounts && r.value.slug == slug
    {
      if IsCooling(slug, now) || IsModelCooling(slug, model, now) {
        return None;
      }
      r := Find(accounts, slug);
    }

    method Cooldown(slug: string, now: nat)
      requires Valid() && NotBefore(now)
      modifies this`cooldownUntil, this`failures
      ensures Valid() && NotBefore(now)
      ensures forall m :: State() == Cool(old(State()), slug, m, false, now)
      ensures failures == old(failures) + [(slug, now)]
      ensures forall s, t :: s != slug ==> Cooling(State(), s, t) == Cooling(old(State()), s, t)
    {
      OneMoreRecord(failures, slug, now);
      hide RecordedWithin, Table, InOrder;
      cooldownUntil := cooldownUntil[slug := now + COOLDOWN];
      failures := failures + [(slug, now)];
    }

    /** A no-op for requests without a model; otherwise it touches this account-model pair only. */
    method CooldownModel(slug: string, model: string, now: nat)
      requires Valid() && NotBefore(now)
      modifies this`modelCooldownUntil, this`gates
      ensures Valid() && NotBefore(now) && State() == Cool(old(State()), slug, model, true, now)
      ensures gates == if model == "" then old(gates) else old(gates) + [((slug, model), now)]
      ensures forall m, s, t :: m != model || s != slug ==> Gated(State(), s, m, t) == Gated(old(State()), s, m, t)
    {
      GateIsScoped(State(), slug, model, now);
      if model == "" {
        return;
      }
      OneMoreRecord(gates, (slug, model), now);
      hide RecordedWithin, Table, InOrder, Gated;
      modelCooldownUntil := modelCooldownUntil[(slug, model) := now + COOLDOWN];
      gates := gates + [((slug, model), now)];
    }

    /** One pass over the rotation: the first account that is permitted, and also not cooling
        when `strict`. */
    method Pass(start: nat, exclude: Option<string>, model: string, now: nat, strict: bool) returns (r: Option<Account>)
      requires Valid()
      ensures r == FirstOf(accounts, start, 0,
                           if strict then HealthyOnes(State(), exclude, model, now)
                           else PermittedOnes(State(), exclude, model, now))
    {
      ghost var wanted :=
        if strict then HealthyOnes(State(), exclude, model, now) else PermittedOnes(State(), exclude, model, now);
      var n := |accounts|;
      for i := 0 to n
        invariant FirstOf(accounts, start, 0, wanted) == FirstOf(accounts, start, i, wanted)
      {
        var a := accounts[(start + i) % n];
        assert a in accounts;
        if exclude == Some(a.slug) || (strict && IsCooling(a.slug, now)) || IsModelCooling(a.slug, model, now) {
          continue;
        }
        return Some(a);
      }
      r := None;
    }

    /** Take a ticket and make the three passes. */
    method Pick(exclude: Option<string>, model: string, now: nat) returns (r: Option<Account>)
      requires Valid()
      modifies this`next
      ensures Valid() && next == old(next) + (if accounts == [] then 0 else 1)
      ensures r == Choice(State(), old(next), exclude, model, now)
    {
      if accounts == [] {
        return None;
      }
      var start := next;
      next := next + 1;
      r := Pass(start, exclude, model, now, true);
      if r.Some? {
        return;
      }
      r := Pass(start, exclude, model, now, false);
      if r.Some? {
        return;
      }
      r := Some(accounts[0]);
    }
  }

  // ---- ranking ----------------------------------------------------------------------

  lemma {:induction false} FirstOfFinds(accounts: seq<Account>, start: nat, i: nat, j: nat, wanted: set<string>)
    requires i <= j < |accounts| && accounts[(start + j) % |accounts|].slug in wanted
    ensures var r := FirstOf(accounts, start, i, wanted);
            r.Some? && r.value in accounts && r.value.slug in wanted
    decreases j - i
  {
    if accounts[(start + i) % |accounts|].slug !in wanted {
      FirstOfFinds(accounts, start, i + 1, j, wanted);
    }
  }

  lemma {:induction false} FirstOfIsWanted(accounts: seq<Account>, start: nat, i: nat, wanted: set<string>)
    ensures var r := FirstOf(accounts, start, i, wanted);
            r.Some? ==> r.value in accounts && r.value.slug in wanted
    decreases |accounts| - i
  {
    if i < |accounts| {
      FirstOfIsWanted(accounts, start, i + 1, wanted);
    }
  }

  /** Every index is reached in one round from any ticket. */
  lemma RotationReaches(n: nat, start: nat, k: nat) returns (j: nat)
    requires k < n
    ensures j < n && (start + j) % n == k
  {
    var s := start % n;
    j := if s <= k then k - s else k + n - s;
    var q := start / n;
    assert start == q * n + s;
    if s <= k {
      assert start + j == q * n + k;
      RemainderOf(q, n, k);
    } else {
      assert start + j == (q + 1) * n + k;
      RemainderOf(q + 1, n, k);
    }
  }

  lemma RemainderOf(q: nat, n: nat, r: nat)
    requires r < n
    ensures (q * n + r) % n == r
  {
    var x := q * n + r;
    var d := q - x / n;
    Scale(q, x / n, n);
    assert d * n == x % n - r;
    if d >= 1 {
      AtLeastOnce(d, n);
    } else if d <= -1 {
      AtLeastOnce(-d, n);
      Negate(d, n);
    }
  }

  lemma Scale(a: int, b: int, n: int)
    ensures (a - b) * n == a * n - b * n
  {
  }

  lemma Negate(d: int, n: int)
    ensures (-d) * n == -(d * n)
  {
  }

  lemma AtLeastOnce(d: int, n: nat)
    requires d >= 1
    ensures d * n >= n
  {
    Scale(d, 1, n);
    NonNegativeProduct(d - 1, n);
  }

  lemma NonNegativeProduct(a: nat, b: nat)
    ensures a * b >= 0
  {
  }

  lemma AddModulus(x: nat, n: nat)
    requires n > 0
    ensures (x + n) % n == x % n
  {
    var q, r := x / n, x % n;
    Scale(q + 1, 1, n);
    RemainderOf(q + 1, n, r);
    assert x + n == (q + 1) * n + r;
  }

  /** `pick` is total and ranked: an account is always returned; a healthy one if there is one,
      else one that is at least not excluded and not gated, else the first of the pool. */
  lemma PickIsTotalAndRanked(v: View, ticket: nat, exclude: Option<string>, model: string, now: nat)
    requires v.accounts != []
    ensures var r := Choice(v, ticket, exclude, model, now);
            && r.Some? && r.value in v.accounts
            && (Healthy(v, r.value.slug, exclude, model, now)
                <==> exists a :: a in v.accounts && Healthy(v, a.slug, exclude, model, now))
            && (Permitted(v, r.value.slug, exclude, model, now)
                <==> exists a :: a in v.accounts && Permitted(v, a.slug, exclude, model, now))
            && (!Permitted(v, r.value.slug, exclude, model, now) ==> r.value == v.accounts[0])
  {
    var healthy, permitted := HealthyOnes(v, exclude, model, now), PermittedOnes(v, exclude, model, now);
    FirstOfIsWanted(v.accounts, ticket, 0, healthy);
    FirstOfIsWanted(v.accounts, ticket, 0, permitted);
    if a :| a in v.accounts && Healthy(v, a.slug, exclude, model, now) {
      var k :| 0 <= k < |v.accounts| && v.accounts[k] == a;
      var j := RotationReaches(|v.accounts|, ticket, k);
      FirstOfFinds(v.accounts, ticket, 0, j, healthy);
    }
    if a :| a in v.accounts && Permitted(v, a.slug, exclude, model, now) {
      var k :| 0 <= k < |v.accounts| && v.accounts[k] == a;
      var j := RotationReaches(|v.accounts|, ticket, k);
      FirstOfFinds(v.accounts, ticket, 0, j, permitted);
    }
  }

  /** The account `i` places after the one whose turn it is. */
  function InTurn(accounts: seq<Account>, ticket: nat, i: nat): (a: Account)
    requires accounts != []
    ensures a in accounts
  {
    accounts[(ticket + i) % |accounts|]
  }

  lemma {:induction false} FirstOfIsFirst(accounts: seq<Account>, start: nat, i: nat, wanted: set<string>)
    returns (j: nat)
    requires FirstOf(accounts, start, i, wanted).Some?
    ensures i <= j < |accounts| && FirstOf(accounts, start, i, wanted) == Some(InTurn(accounts, start, j))
    ensures forall k: nat :: i <= k < j ==> InTurn(accounts, start, k).slug !in wanted
    decreases |accounts| - i
  {
    j := i;
    if InTurn(accounts, start, i).slug !in wanted {
      j := FirstOfIsFirst(accounts, start, i + 1, wanted);
    }
  }

  /** The account picked is the one `j` places after the ticket's, and none of those passed over was
      as good. */
  lemma PickFollowsRotation(v: View, ticket: nat, exclude: Option<string>, model: string, now: nat, picked: Account)
    returns (j: nat)
    requires Choice(v, ticket, exclude, model, now) == Some(picked) && Permitted(v, picked.slug, exclude, model, now)
    ensures j < |v.accounts| && picked == InTurn(v.accounts, ticket, j)
    ensures Healthy(v, picked.slug, exclude, model, now) ==>
              forall i: nat :: i < j ==> !Healthy(v, InTurn(v.accounts, ticket, i).slug, exclude, model, now)
    ensures forall i: nat :: i < j && Permitted(v, InTurn(v.accounts, ticket, i).slug, exclude, model, now) ==>
              Healthy(v, picked.slug, exclude, model, now)
  {
    var healthy, permitted := HealthyOnes(v, exclude, model, now), PermittedOnes(v, exclude, model, now);
    FirstOfIsWanted(v.accounts, ticket, 0, healthy);
    FirstOfIsWanted(v.accounts, ticket, 0, permitted);
    var k := RotationReaches(|v.accounts|, ticket, 0);
    if picked == v.accounts[0] {
      FirstOfFinds(v.accounts, ticket, 0, k, permitted);
    }
    hide FirstOf, InTurn, Permitted;
    if FirstOf(v.accounts, ticket, 0, healthy).Some? {
      j := FirstOfIsFirst(v.accounts, ticket, 0, healthy);
    } else {
      j := FirstOfIsFirst(v.accounts, ticket, 0, permitted);
    }
  }

  /** A retry that excludes a pool account goes to a different one exactly when another account
      is not gated, or the pool's first account is not the excluded one. */
  lemma RetryFindsAnother(v: View, ticket: nat, failed: string, model: string, now: nat)
    requires v.accounts != []
    ensures Choice(v, ticket, Some(failed), model, now).Some?
    ensures Choice(v, ticket, Some(failed), model, now).value.slug != failed
       <==> (exists a :: a in v.accounts && a.slug != failed && !Gated(v, a.slug, model, now))
            || v.accounts[0].slug != failed
  {
    PickIsTotalAndRanked(v, ticket, Some(failed), model, now);
    var r := Choice(v, ticket, Some(failed), model, now).value;
    if a :| a in v.accounts && a.slug != failed && !Gated(v, a.slug, model, now) {
      assert Permitted(v, a.slug, Some(failed), model, now);
    }
    if Permitted(v, r.slug, Some(failed), model, now) {
      assert r in v.accounts && r.slug != failed && !Gated(v, r.slug, model, now);
    }
  }

  /** A cooldown for one model never changes the pick for another. */
  lemma ModelCooldownIsScoped(v: View, slug: string, gated: string, until: nat,
                              ticket: nat, exclude: Option<string>, model: string, now: nat)
    requires model != gated
    ensures var w := v.(modelCooldownUntil := v.modelCooldownUntil[(slug, gated) := until]);
            && Choice(w, ticket, exclude, model, now) == Choice(v, ticket, exclude, model, now)
            && forall s :: Pinned(w, s, model, now) == Pinned(v, s, model, now)
  {
    var w := v.(modelCooldownUntil := v.modelCooldownUntil[(slug, gated) := until]);
    assert forall s :: Gated(w, s, model, now) == Gated(v, s, model, now);
    assert HealthyOnes(w, exclude, model, now) == HealthyOnes(v, exclude, model, now);
    assert PermittedOnes(w, exclude, model, now) == PermittedOnes(v, exclude, model, now);
  }

  // ---- picking while others record cooldowns -----------------------------------------------

  /** What a pick sees when it looks at one account: the tables and the clock at that moment. */
  datatype Reading = Reading(view: View, now: nat)

  predicate Passes(r: Reading, slug: string, exclude: Option<string>, model: string, strict: bool) {
    if strict then Healthy(r.view, slug, exclude, model, r.now) else Permitted(r.view, slug, exclude, model, r.now)
  }

  /** One pass over the rotation, the i-th account judged by the i-th reading. */
  function Scan(accounts: seq<Account>, start: nat, i: nat, readings: seq<Reading>,
                exclude: Option<string>, model: string, strict: bool): Option<Account>
    requires |readings| == |accounts|
    decreases |accounts| - i
  {
    if i >= |accounts| then None
    else
      var a := accounts[(start + i) % |accounts|];
      if Passes(readings[i], a.slug, exclude, model, strict) then Some(a)
      else Scan(accounts, start, i + 1, readings, exclude, model, strict)
  }

  /** The three passes, `first` and `second` being what the first two of them read. */
  function ScannedChoice(accounts: seq<Account>, ticket: nat, first: seq<Reading>, second: seq<Reading>,
                         exclude: Option<string>, model: string): Option<Account>
    requires |first| == |second| == |accounts|
  {
    var healthy := Scan(accounts, ticket, 0, first, exclude, model, true);
    var permitted := Scan(accounts, ticket, 0, second, exclude, model, false);
    if healthy.Some? then healthy
    else if permitted.Some? then permitted
    else if accounts == [] then None
    else Some(accounts[0])
  }

  lemma {:induction false} ScanFinds(accounts: seq<Account>, start: nat, i: nat, j: nat, readings: seq<Reading>,
                                     exclude: Option<string>, model: string, strict: bool)
    requires |readings| == |accounts| && i <= j < |accounts|
    requires Passes(readings[j], accounts[(start + j) % |accounts|].slug, exclude, model, strict)
    ensures Scan(accounts, start, i, readings, exclude, model, strict).Some?
    decreases j - i
  {
    if !Passes(readings[i], accounts[(start + i) % |accounts|].slug, exclude, model, strict) {
      ScanFinds(accounts, start, i + 1, j, readings, exclude, model, strict);
    }
  }

  lemma {:induction false} ScanPasses(accounts: seq<Account>, start: nat, i: nat, readings: seq<Reading>,
                                      exclude: Option<string>, model: string, strict: bool)
    requires |readings| == |accounts|
    ensures var r := Scan(accounts, start, i, readings, exclude, model, strict);
            r.Some? ==>
              && r.value in accounts
              && exists k :: 0 <= k < |readings| && Passes(readings[k], r.value.slug, exclude, model, strict)
    decreases |accounts| - i
  {
    if i < |accounts| {
      if Passes(readings[i], accounts[(start + i) % |accounts|].slug, exclude, model, strict) {
        assert accounts[(start + i) % |accounts|] in accounts;
      } else {
        ScanPasses(accounts, start, i + 1, readings, exclude, model, strict);
      }
    }
  }

  /** Whatever the other requests record meanwhile: if one account is healthy at every reading of
      the first pass, the pick is an account that was healthy when it was looked at; if one is at
      least permitted at every reading, the pick was permitted then. */
  lemma SteadyAccountIsEnough(accounts: seq<Account>, ticket: nat, first: seq<Reading>, second: seq<Reading>,
                              exclude: Option<string>, model: string, a: Account)
    requires |first| == |second| == |accounts| && a in accounts
    ensures var r := ScannedChoice(accounts, ticket, first, second, exclude, model);
            && r.Some? && r.value in accounts
            && ((forall k :: 0 <= k < |first| ==> Passes(first[k], a.slug, exclude, model, true)) ==>
                  exists k :: 0 <= k < |first| && Passes(first[k], r.value.slug, exclude, model, true))
            && ((forall k :: 0 <= k < |second| ==> Passes(second[k], a.slug, exclude, model, false)) ==>
                  || (exists k :: 0 <= k < |first| && Passes(first[k], r.value.slug, exclude, model, true))
                  || (exists k :: 0 <= k < |second| && Passes(second[k], r.value.slug, exclude, model, false)))
  {
    var k :| 0 <= k < |accounts| && accounts[k] == a;
    var j := RotationReaches(|accounts|, ticket, k);
    ScanPasses(accounts, ticket, 0, first, exclude, model, true);
    ScanPasses(accounts, ticket, 0, second, exclude, model, false);
    if Passes(first[j], a.slug, exclude, model, true) {
      ScanFinds(accounts, ticket, 0, j, first, exclude, model, true);
    }
    if Passes(second[j], a.slug, exclude, model, false) {
      ScanFinds(accounts, ticket, 0, j, second, exclude, model, false);
    }
  }

  lemma {:induction false} QuietScan(v: View, start: nat, i: nat, readings: seq<Reading>,
                                     exclude: Option<string>, model: string, now: nat, strict: bool)
    requires |readings| == |v.accounts| && forall r :: r in readings ==> r == Reading(v, now)
    ensures Scan(v.accounts, start, i, readings, exclude, model, strict)
         == FirstOf(v.accounts, start, i,
                    if strict then HealthyOnes(v, exclude, model, now) else PermittedOnes(v, exclude, model, now))
    decreases |v.accounts| - i
  {
    if i < |v.accounts| {
      QuietScan(v, start, i + 1, readings, exclude, model, now, strict);
      assert readings[i] in readings && v.accounts[(start + i) % |v.accounts|] in v.accounts;
    }
  }

  /** When nothing is recorded meanwhile and no time passes, the pick is `Choice`. */
  lemma QuietPick(v: View, ticket: nat, first: seq<Reading>, second: seq<Reading>,
                  exclude: Option<string>, model: string, now: nat)
    requires |first| == |second| == |v.accounts|
    requires forall r :: r in first || r in second ==> r == Reading(v, now)
    ensures ScannedChoice(v.accounts, ticket, first, second, exclude, model) == Choice(v, ticket, exclude, model, now)
  {
    QuietScan(v, ticket, 0, first, exclude, model, now, true);
    QuietScan(v, ticket, 0, second, exclude, model, now, false);
  }

  // ---- fairness -----------------------------------------------------------------------

  /** One caller's pick: what it saw of the pool, its model and the time. */
  datatype Caller = Caller(view: View, model: string, now: nat)

  ghost predicate AllHealthy(accounts: seq<Account>, c: Caller) {
    && c.view.accounts == accounts
    && forall a :: a in accounts ==> Healthy(c.view, a.slug, None, c.model, c.now)
  }

  /** How often `a` is picked when the callers hold consecutive tickets from `ticket`. */
  function TimesPicked(a: Account, ticket: nat, callers: seq<Caller>): nat {
    if callers == [] then 0
    else
      var c := Last(callers);
      TimesPicked(a, ticket, Init(callers))
      + (if Choice(c.view, ticket + |callers| - 1, None, c.model, c.now) == Some(a) then 1 else 0)
  }

  lemma HealthyPick(accounts: seq<Account>, c: Caller, ticket: nat)
    requires accounts != [] && AllHealthy(accounts, c)
    ensures Choice(c.view, ticket, None, c.model, c.now) == Some(accounts[ticket % |accounts|])
  {
    assert accounts[(ticket + 0) % |accounts|] in accounts;
  }

  lemma {:induction false} PickedPerRemainder(accounts: seq<Account>, k: nat, ticket: nat, callers: seq<Caller>)
    requires DistinctSlugs(accounts) && k < |accounts|
    requires forall c :: c in callers ==> AllHealthy(accounts, c)
    ensures TimesPicked(accounts[k], ticket, callers) == Hits(|accounts|, k, ticket, |callers|)
  {
    if callers != [] {
      var c := Last(callers);
      assert c in callers && forall d :: d in Init(callers) ==> d in callers;
      PickedPerRemainder(accounts, k, ticket, Init(callers));
      HealthyPick(accounts, c, ticket + |callers| - 1);
      var j := (ticket + |callers| - 1) % |accounts|;
      assert accounts[j] == accounts[k] <==> j == k;
    }
  }

  /** How many of the `m` numbers from `t` on leave remainder `k` modulo `n`. */
  function Hits(n: nat, k: nat, t: nat, m: nat): nat
    requires n > 0
  {
    if m == 0 then 0 else Hits(n, k, t, m - 1) + (if (t + m - 1) % n == k then 1 else 0)
  }

  /** Sliding the window by one number trades `t` for `t + m`. */
  lemma {:induction false} SlideWindow(n: nat, k: nat, t: nat, m: nat)
    requires n > 0
    ensures Hits(n, k, t + 1, m) + (if t % n == k then 1 else 0) 
         == Hits(n, k, t, m) + (if (t + m) % n == k then 1 else 0)
  {
    if m > 0 {
      SlideWindow(n, k, t, m - 1);
    }
  }

  lemma {:induction false} HitsFromZero(n: nat, k: nat, m: nat)
    requires k < n && m <= n
    ensures Hits(n, k, 0, m) == if k < m then 1 else 0
  {
    if m > 0 {
      HitsFromZero(n, k, m - 1);
      RemainderOf(0, n, m - 1);
    }
  }

  lemma {:induction false} OneRound(n: nat, k: nat, t: nat)
    requires k < n
    ensures Hits(n, k, t, n) == 1
  {
    if t == 0 {
      HitsFromZero(n, k, n);
    } else {
      OneRound(n, k, t - 1);
      SlideWindow(n, k, t - 1, n);
      AddModulus(t - 1, n);
    }
  }

  lemma {:induction false} HitsAppend(n: nat, k: nat, t: nat, a: nat, b: nat)
    requires n > 0
    ensures Hits(n, k, t, a + b) == Hits(n, k, t, a) + Hits(n, k, t + a, b)
  {
    if b > 0 {
      HitsAppend(n, k, t, a, b - 1);
    }
  }

  lemma {:induction false} Rounds(n: nat, k: nat, t: nat, rounds: nat)
    requires k < n
    ensures Hits(n, k, t, rounds * n) == rounds
  {
    if rounds > 0 {
      hide Hits;
      Rounds(n, k, t, rounds - 1);
      Scale(rounds, 1, n);
      NonNegativeProduct(rounds - 1, n);
      var m := (rounds - 1) * n;
      HitsAppend(n, k, t, m, n);
      OneRound(n, k, t + m);
    }
  }

  /** With all accounts healthy and nothing excluded, any window of `rounds * n` consecutive
      tickets picks each of the n accounts exactly `rounds` times, whoever holds them. */
  lemma RoundRobinIsFair(accounts: seq<Account>, k: nat, ticket: nat, rounds: nat, callers: seq<Caller>)
    requires DistinctSlugs(accounts) && k < |accounts| && |callers| == rounds * |accounts|
    requires forall c :: c in callers ==> AllHealthy(accounts, c)
    ensures TimesPicked(accounts[k], ticket, callers) == rounds
  {
    PickedPerRemainder(accounts, k, ticket, callers);
    Rounds(|accounts|, k, ticket, rounds);
  }
}
