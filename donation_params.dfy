/** Parsing of the donation form posted to the `/donation` route
    (`get_donation_params` in donate/routes.py). */
module DonationParams {
  import opened Wrappers
  import opened Forms

  const ChargeAmountKey := "charge[amount]"
  const EmailKey := "donor[email]"
  const NameKey := "donor[name]"
  const TokenKey := "donor[stripe_token]"
  const RecurringKey := "charge[recurring]"
  const AnonymousKey := "donor[anonymous]"
  const ProjectKey := "project_select"
  const DefaultName := "Anonymous"

  /** The parameter record the route works with from then on. */
  datatype Params = Params(
    charge: string,
    email: string,
    name: string,
    stripeToken: string,
    recurring: bool,
    anonymous: bool,
    projectSelect: string)

  /** The exceptions parsing can raise: KeyError for a required key that was not sent,
      IndexError when no usable amount is left. */
  datatype ParamError = MissingKey(key: string) | NoCharge

  /** The amount-selector values that do not stand for an amount. */
  predicate IsPlaceholder(v: string)
  {
    v == "" || v == "other" || v == " "
  }

  /** The list comprehension over `form.getlist('charge[amount]')`. */
  function KeepCharges(vs: seq<string>): (cs: seq<string>)
    ensures |cs| <= |vs|
    ensures forall c :: c in cs <==> c in vs && !IsPlaceholder(c)
  {
    if vs == [] then []
    else
      assert forall c :: c in vs <==> c == vs[0] || c in vs[1..];
      (if IsPlaceholder(vs[0]) then [] else [vs[0]]) + KeepCharges(vs[1..])
  }

  /** `get_donation_params(form)`, with the dict literal's entries evaluated in order:
      the first failing entry decides the exception. */
  function GetDonationParams(f: Form): (r: Result<Params, ParamError>)
    ensures r.Ok? ==> !IsPlaceholder(r.value.charge) && (ChargeAmountKey, r.value.charge) in f.entries
    ensures r.Ok? ==>
      && (EmailKey, r.value.email) in f.entries
      && (TokenKey, r.value.stripeToken) in f.entries
      && (ProjectKey, r.value.projectSelect) in f.entries
    ensures r.Err? && r.error.MissingKey? ==>
      r.error.key in [EmailKey, TokenKey, ProjectKey] && !Contains(f, r.error.key)
  {
    var charges := KeepCharges(GetList(f, ChargeAmountKey));
    if charges == [] then Err(NoCharge)
    else
      assert charges[0] in charges;
      match Lookup(f, EmailKey)
      case None => Err(MissingKey(EmailKey))
      case Some(email) =>
        var name := GetOr(f, NameKey, DefaultName);
        match Lookup(f, TokenKey)
        case None => Err(MissingKey(TokenKey))
        case Some(token) =>
          var recurring := Contains(f, RecurringKey);
          var anonymous := Contains(f, AnonymousKey);
          match Lookup(f, ProjectKey)
          case None => Err(MissingKey(ProjectKey))
          case Some(project) =>
            Ok(Params(charges[0], email, name, token, recurring, anonymous, project))
  }

  /** Filtering distributes over concatenation: kept entries stay in their original order. */
  lemma {:induction false} KeepChargesAppend(a: seq<string>, b: seq<string>)
    ensures KeepCharges(a + b) == KeepCharges(a) + KeepCharges(b)
  {
    if a != [] {
      assert (a + b)[1..] == a[1..] + b;
      KeepChargesAppend(a[1..], b);
    } else {
      assert a + b == b;
    }
  }

  /** Filtering a single entry keeps it exactly when it is not a placeholder; with
      KeepChargesAppend this determines the filter on every list. */
  lemma KeepChargesSingle(v: string)
    ensures KeepCharges([v]) == (if IsPlaceholder(v) then [] else [v])
  {
    assert [v][1..] == [];
  }

  /** The filter removes every placeholder and nothing else: filtering twice changes nothing,
      and the result is empty exactly when every entry is a placeholder. */
  lemma {:induction false} KeepChargesIdempotent(vs: seq<string>)
    ensures KeepCharges(KeepCharges(vs)) == KeepCharges(vs)
    ensures KeepCharges(vs) == [] <==> forall i :: 0 <= i < |vs| ==> IsPlaceholder(vs[i])
  {
    if vs != [] {
      KeepChargesIdempotent(vs[1..]);
      var head := if IsPlaceholder(vs[0]) then [] else [vs[0]];
      KeepChargesAppend(head, KeepCharges(vs[1..]));
      KeepChargesSingle(vs[0]);
      if !IsPlaceholder(vs[0]) {
        assert KeepCharges(head) == head;
      } else {
        assert KeepCharges(head) == [] by { assert head == []; }
        assert (forall i :: 0 <= i < |vs| ==> IsPlaceholder(vs[i]))
           <==> (forall i :: 0 <= i < |vs[1..]| ==> IsPlaceholder(vs[1..][i])) by {
          forall i | 0 <= i < |vs[1..]| ensures vs[1..][i] == vs[i + 1] { }
        }
      }
    }
  }

  /** Parsing succeeds exactly when some amount survives the filter and the three required
      keys were sent; it then copies the first surviving amount and the required values,
      defaults the name, and sets both flags from key presence alone. */
  lemma ParamsOnSuccess(f: Form)
    ensures GetDonationParams(f).Ok? <==>
      KeepCharges(GetList(f, ChargeAmountKey)) != [] &&
      Contains(f, EmailKey) && Contains(f, TokenKey) && Contains(f, ProjectKey)
    ensures GetDonationParams(f).Ok? ==>
      var p := GetDonationParams(f).value;
      && p.charge == KeepCharges(GetList(f, ChargeAmountKey))[0]
      && p.charge in GetList(f, ChargeAmountKey) && !IsPlaceholder(p.charge)
      && (ChargeAmountKey, p.charge) in f.entries
      && p.email == GetList(f, EmailKey)[0]
      && p.stripeToken == GetList(f, TokenKey)[0]
      && p.projectSelect == GetList(f, ProjectKey)[0]
      && p.name == (if GetList(f, NameKey) == [] then DefaultName else GetList(f, NameKey)[0])
      && (p.recurring <==> exists v :: (RecurringKey, v) in f.entries)
      && (p.anonymous <==> exists v :: (AnonymousKey, v) in f.entries)
  {
    LookupIsHeadOfList(f, EmailKey);
    LookupIsHeadOfList(f, TokenKey);
    LookupIsHeadOfList(f, ProjectKey);
    LookupIsHeadOfList(f, NameKey);
    LookupIsHeadOfList(f, RecurringKey);
    LookupIsHeadOfList(f, AnonymousKey);
    var cs := KeepCharges(GetList(f, ChargeAmountKey));
    if cs != [] {
      assert cs[0] in cs;
    }
    if Contains(f, RecurringKey) {
      assert GetList(f, RecurringKey)[0] in GetList(f, RecurringKey);
    }
    if Contains(f, AnonymousKey) {
      assert GetList(f, AnonymousKey)[0] in GetList(f, AnonymousKey);
    }
  }

  /** The exception raised on failure: IndexError when no amount survives, whatever else is
      missing; otherwise KeyError for the first absent key in the order email, stripe token,
      project. An absent name or flag key is never an error. */
  lemma ParamsOnFailure(f: Form)
    ensures KeepCharges(GetList(f, ChargeAmountKey)) == [] ==> GetDonationParams(f) == Err(NoCharge)
    ensures KeepCharges(GetList(f, ChargeAmountKey)) != [] && !Contains(f, EmailKey) ==>
      GetDonationParams(f) == Err(MissingKey(EmailKey))
    ensures KeepCharges(GetList(f, ChargeAmountKey)) != [] && Contains(f, EmailKey) && !Contains(f, TokenKey) ==>
      GetDonationParams(f) == Err(MissingKey(TokenKey))
    ensures
      (KeepCharges(GetList(f, ChargeAmountKey)) != [] && Contains(f, EmailKey) && Contains(f, TokenKey) &&
       !Contains(f, ProjectKey)) ==> GetDonationParams(f) == Err(MissingKey(ProjectKey))
  {
  }
}
