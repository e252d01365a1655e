/**
 * The donor collection and the three handlers that use it: POST /register
 * (create or retrieve), POST /donate (accumulate) and GET /donate (show).
 * The collection is a map from phone number to record; timestamps come from
 * a logical clock that ticks once per write.
 */
module Store {
  import opened Types
  import opened Donors

  /** Result of POST /register: the identity cookie is set to `token`, or the error message is sent. */
  datatype RegisterOutcome = Issued(token: string) | Failed

  /** Result of POST /donate. */
  datatype DonateOutcome = RedirectBack | Logout | Credited

  /** Result of GET /donate. */
  datatype DonateView = ToRegister | ToLogout | Show(name: string, amount: int, lastDonated: LastSeen)

  /**
   * The phone POST /donate looks up: the cookie's, or, without a cookie,
   * the phone of whichever record the driver answers for an undefined filter
   * value (None when it answers none).
   */
  function DonateKey(cookie: Option<string>, unkeyed: Option<string>): (k: Option<string>)
    ensures cookie.Some? ==> k == cookie
    ensures cookie.None? ==> k == unkeyed
  {
    if cookie.Some? then cookie else unkeyed
  }

  /** A lookup by `key` finds a record. */
  predicate Found(key: Option<string>, donors: map<string, Donor>) {
    key.Some? && key.value in donors
  }

  class DonorStore {
    var donors: map<string, Donor>
    var clock: int

    /** Every record is keyed by its own phone, and its timestamps are ordered and not in the future. */
    ghost predicate Valid()
      reads this
    {
      forall p :: p in donors ==>
        donors[p].phone == p && donors[p].createdAt <= donors[p].updatedAt <= clock
    }

    constructor ()
      ensures Valid()
      ensures donors == map[] && clock == 0
    {
      donors := map[];
      clock := 0;
    }

    /**
     * Create-or-retrieve by phone. A known phone leaves the store untouched;
     * an unknown one inserts exactly one record, unless a profile field is
     * missing, in which case nothing is inserted. The token is the phone.
     */
    method Register(form: RegisterForm) returns (outcome: RegisterOutcome)
      requires Valid()
      modifies this
      ensures Valid()
      ensures form.phone in old(donors) ==>
        outcome == Issued(form.phone) && donors == old(donors) && clock == old(clock)
      ensures form.phone !in old(donors) && NewDonor(form, old(clock) + 1).None? ==>
        outcome == Failed && donors == old(donors) && clock == old(clock)
      ensures form.phone !in old(donors) && NewDonor(form, old(clock) + 1).Some? ==>
        && outcome == Issued(form.phone)
        && clock == old(clock) + 1
        && donors == old(donors)[form.phone := NewDonor(form, clock).value]
      ensures outcome.Issued? ==> outcome.token == form.phone && form.phone in donors
      ensures forall p :: p in old(donors) ==> p in donors && donors[p] == old(donors)[p]
      ensures donors.Keys <= old(donors).Keys + {form.phone}
    {
      if form.phone in donors {
        outcome := Issued(form.phone);
        return;
      }
      var created := NewDonor(form, clock + 1);
      if created.None? {
        outcome := Failed;
        return;
      }
      clock := clock + 1;
      donors := donors[form.phone := created.value];
      outcome := Issued(form.phone);
    }

    /**
     * Accumulate a donation onto the donor the lookup finds. A missing or
     * non-positive amount and a lookup that finds nobody both leave the store
     * untouched; otherwise exactly that donor's amount grows by the submitted
     * amount. The lookup is by the cookie's phone; without a cookie its filter
     * value is undefined, and which record (if any) the driver answers then is
     * `unkeyed`.
     */
    method Donate(cookie: Option<string>, unkeyed: Option<string>, submitted: Option<int>)
      returns (outcome: DonateOutcome)
      requires Valid()
      modifies this
      ensures Valid()
      ensures outcome == RedirectBack <==> !Accepts(submitted)
      ensures outcome == Logout <==>
        Accepts(submitted) && !Found(DonateKey(cookie, unkeyed), old(donors))
      ensures outcome != Credited ==> donors == old(donors) && clock == old(clock)
      ensures outcome == Credited ==>
        var key := DonateKey(cookie, unkeyed).value;
        && Found(DonateKey(cookie, unkeyed), old(donors))
        && clock == old(clock) + 1
        && donors == old(donors)[key := Credit(old(donors)[key], submitted.value, clock)]
      ensures donors.Keys == old(donors).Keys
      ensures forall p :: p in old(donors) ==> donors[p].amount >= old(donors)[p].amount
      ensures Found(DonateKey(cookie, unkeyed), old(donors)) ==>
        var key := DonateKey(cookie, unkeyed).value;
        donors[key] == Replay(old(donors)[key], [submitted], old(clock))
    {
      if submitted.None? || submitted.value <= 0 {
        outcome := RedirectBack;
        return;
      }
      var key := DonateKey(cookie, unkeyed);
      if key.None? || key.value !in donors {
        outcome := Logout;
        return;
      }
      var phone := key.value;
      clock := clock + 1;
      donors := donors[phone := Credit(donors[phone], submitted.value, clock)];
      outcome := Credited;
    }

    /**
     * GET /donate: no identity cookie sends the caller to registration, a
     * cookie naming no donor to logout; otherwise the donor's own page.
     */
    function DonatePage(cookie: Option<string>): (v: DonateView)
      reads this
      ensures v == ToRegister <==> !Truthy(cookie)
      ensures v == ToLogout <==> Truthy(cookie) && cookie.value !in donors
      ensures v.Show? ==>
        && cookie.Some? && cookie.value in donors
        && v.name == donors[cookie.value].name
        && v.amount == donors[cookie.value].amount
        && (v.lastDonated == Never <==> donors[cookie.value].createdAt == donors[cookie.value].updatedAt)
        && (v.lastDonated != Never ==> v.lastDonated == At(donors[cookie.value].updatedAt))
    {
      if !Truthy(cookie) then ToRegister
      else if cookie.value !in donors then ToLogout
      else
        var d := donors[cookie.value];
        Show(d.name, d.amount, LastDonated(d))
    }
  }

  /** Registering the same phone twice: the second call changes nothing and hands out the same token. */
  method RegisterTwice(store: DonorStore, first: RegisterForm, second: RegisterForm)
    returns (o1: RegisterOutcome, o2: RegisterOutcome)
    requires store.Valid()
    requires first.phone == second.phone
    modifies store
    ensures store.Valid()
    ensures o1.Issued? ==> o2 == o1 == Issued(first.phone)
    ensures o1.Issued? && first.phone in old(store.donors) ==> store.donors == old(store.donors)
    ensures o1.Issued? && first.phone !in old(store.donors) ==>
      && NewDonor(first, old(store.clock) + 1).Some?
      && store.donors == old(store.donors)[first.phone := NewDonor(first, old(store.clock) + 1).value]
    ensures store.donors.Keys <= old(store.donors).Keys + {first.phone}
  {
    o1 := store.Register(first);
    ghost var after := store.donors;
    o2 := store.Register(second);
    assert o1.Issued? ==> store.donors == after;
  }

  /** The end-to-end run: register "jane", donate 5 on top of 10, and see 15 and a donation time. */
  method Scenario() {
    var store := new DonorStore();
    var form := RegisterForm(Some("jane"), Some("a"), Some("+"), Some("nyc"), "555", Some(10), None);
    var o := store.Register(form);
    assert o == Issued("555");
    assert Upper("jane") == "JANE";
    assert Upper("a") == "A";
    assert Upper("nyc") == "NYC";
    var d := store.donors["555"];
    assert d.name == "JANE" && d.bloodGroup == "A+" && d.city == "NYC" && d.amount == 10;
    assert store.DonatePage(Some("555")).lastDonated == Never;
    var r := store.Donate(Some("555"), None, Some(5));
    assert r == Credited;
    assert store.donors["555"].amount == 15;
    assert store.donors["555"].updatedAt > store.donors["555"].createdAt;
    var v := store.DonatePage(Some("555"));
    assert v == Show("JANE", 15, At(store.clock));
  }
}
