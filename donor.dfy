/**
 * The donor record, the registration form, and the pure pieces of the
 * register and donate handlers: building a new record and crediting an amount.
 */
module Donors {
  import opened Types

  /** A donor as stored; `phone` is both the key and the identity token. */
  datatype Donor = Donor(
    name: string,
    bloodGroup: string,
    city: string,
    phone: string,
    amount: int,
    address: Option<string>,
    createdAt: int,
    updatedAt: int)

  /** The body of a registration request; any field except the phone may be missing. */
  datatype RegisterForm = RegisterForm(
    name: Option<string>,
    blood: Option<string>,
    rh: Option<string>,
    city: Option<string>,
    phone: string,
    amount: Option<int>,
    address: Option<string>)

  /** What the "last donated" line of the donation page shows. */
  datatype LastSeen = Never | At(time: int)

  predicate IsLower(c: char) {
    'a' <= c <= 'z'
  }

  /** `toUpperCase` on one character (letters of the Latin alphabet). */
  function UpperChar(c: char): (u: char)
    ensures !IsLower(u)
    ensures IsLower(c) ==> u as int == c as int - 32
    ensures !IsLower(c) ==> u == c
  {
    if IsLower(c) then (c as int - 32) as char else c
  }

  /** `toUpperCase` on a string. */
  function Upper(s: string): (r: string)
    ensures |r| == |s|
    ensures forall i :: 0 <= i < |s| ==> r[i] == UpperChar(s[i])
  {
    if s == [] then [] else [UpperChar(s[0])] + Upper(s[1..])
  }

  /** Upper-casing twice is upper-casing once. */
  lemma UpperIdempotent(s: string)
    ensures Upper(Upper(s)) == Upper(s)
  {
    var u := Upper(s);
    assert forall i :: 0 <= i < |u| ==> UpperChar(u[i]) == u[i];
  }

  /** JavaScript `String(rh)` as used by `+`: a missing Rh sign is spelled "undefined". */
  function RhText(rh: Option<string>): string {
    if rh.Some? then rh.value else "undefined"
  }

  /** `req.body.amount || 0`: a missing or zero amount is stored as 0. */
  function InitialAmount(amount: Option<int>): (a: int)
    ensures amount.None? ==> a == 0
    ensures amount.Some? ==> a == amount.value
  {
    if amount.Some? && amount.value != 0 then amount.value else 0
  }

  /**
   * The record that registration inserts, stamped `stamp`; None when name,
   * blood or city is missing (calling `toUpperCase` on it throws, and the
   * handler answers with the error message instead of inserting).
   */
  function NewDonor(form: RegisterForm, stamp: int): (r: Option<Donor>)
    ensures r.Some? <==> form.name.Some? && form.blood.Some? && form.city.Some?
    ensures r.Some? ==> && r.value.phone == form.phone
                        && r.value.name == Upper(form.name.value)
                        && r.value.city == Upper(form.city.value)
                        && r.value.bloodGroup == Upper(form.blood.value) + RhText(form.rh)
                        && r.value.amount == InitialAmount(form.amount)
                        && r.value.address == form.address
                        && r.value.createdAt == r.value.updatedAt == stamp
  {
    if form.name.None? || form.blood.None? || form.city.None? then None
    else Some(Donor(
      name := Upper(form.name.value),
      bloodGroup := Upper(form.blood.value) + RhText(form.rh),
      city := Upper(form.city.value),
      phone := form.phone,
      amount := InitialAmount(form.amount),
      address := form.address,
      createdAt := stamp,
      updatedAt := stamp))
  }

  /** The donation guard: an amount is accepted only when present and positive. */
  predicate Accepts(submitted: Option<int>) {
    submitted.Some? && submitted.value > 0
  }

  /** `user.amount += amount` followed by a save stamped `stamp`. */
  function Credit(d: Donor, amount: int, stamp: int): (r: Donor)
  {
    d.(amount := d.amount + amount, updatedAt := stamp)
  }

  /** A credit adds to the amount and bumps the update time; nothing else of the record changes. */
  lemma CreditChangesOnlyAmount(d: Donor, amount: int, stamp: int)
    ensures var r := Credit(d, amount, stamp);
            && r.amount - d.amount == amount
            && r.updatedAt == stamp
            && r.(amount := d.amount, updatedAt := d.updatedAt) == d
  {
  }

  /** The "last donated" value: "Never." exactly when the record was not written since it was created. */
  function LastDonated(d: Donor): (r: LastSeen)
    ensures r == Never <==> d.createdAt == d.updatedAt
    ensures r != Never ==> r == At(d.updatedAt)
  {
    if d.createdAt - d.updatedAt == 0 then Never else At(d.updatedAt)
  }

  /** A freshly registered donor has never donated. */
  lemma NewDonorNeverDonated(form: RegisterForm, stamp: int)
    requires NewDonor(form, stamp).Some?
    ensures LastDonated(NewDonor(form, stamp).value) == Never
  {
  }

  /** After a credit stamped later than creation, the page shows the time of that credit. */
  lemma CreditShowsDonation(d: Donor, amount: int, stamp: int)
    requires d.createdAt < stamp
    ensures LastDonated(Credit(d, amount, stamp)) == At(stamp)
  {
  }

  /** Sum of the amounts the guard accepts among `subs`. */
  function AcceptedTotal(subs: seq<Option<int>>): (t: nat)
  {
    if subs == [] then 0
    else (if Accepts(subs[0]) then subs[0].value else 0) + AcceptedTotal(subs[1..])
  }

  /**
   * A donor after a series of donation requests, in order: each accepted
   * amount is credited with the next tick of the clock, rejected ones change nothing.
   */
  function Replay(d: Donor, subs: seq<Option<int>>, clock: int): (r: Donor)
    decreases |subs|
  {
    if subs == [] then d
    else if Accepts(subs[0]) then Replay(Credit(d, subs[0].value, clock + 1), subs[1..], clock + 1)
    else Replay(d, subs[1..], clock)
  }

  /**
   * After any number of donation requests the amount is the old amount plus
   * the sum of the accepted ones, so it never decreases; identity and profile
   * do not change, and the record shows a donation once one was accepted.
   */
  lemma {:induction false} ReplayTotals(d: Donor, subs: seq<Option<int>>, clock: int)
    requires d.createdAt <= d.updatedAt <= clock
    decreases |subs|
    ensures var r := Replay(d, subs, clock);
            && r.amount == d.amount + AcceptedTotal(subs)
            && r.amount >= d.amount
            && r.(amount := d.amount, updatedAt := d.updatedAt) == d
            && r.createdAt <= r.updatedAt
            && (AcceptedTotal(subs) > 0 ==> LastDonated(r) != Never)
            && (AcceptedTotal(subs) == 0 ==> r == d)
  {
    if subs != [] {
      if Accepts(subs[0]) {
        var d' := Credit(d, subs[0].value, clock + 1);
        ReplayTotals(d', subs[1..], clock + 1);
      } else {
        ReplayTotals(d, subs[1..], clock);
      }
    }
  }
}
