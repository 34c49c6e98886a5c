/** The subscription part of `get_user_profile`: whether the viewer's credits have run
    out or are about to, and how many credits the page shows. The request, the avatar and
    the first name are not modelled; the viewer is reduced to what the credits logic
    reads. */
module Profile {
  import opened Results

  /** Who is looking: an anonymous visitor, a user without a subscriber record, or a
      subscriber whose `credits` column may be NULL. */
  datatype Viewer = Anonymous | NoSubscriber | Subscriber(credits: Option<int>)

  /** The credits entries of the context dictionary. */
  datatype Flags = Flags(aboutToExpire: bool, expired: bool, credits: int)

  /** The credits part of `get_user_profile`, as written. `None` is the empty dictionary returned when the user has
      no subscriber record. `not credits` holds for NULL and for 0; the `credits <= 0`
      test comes after `credits <= 30` and so never decides anything. */
  function CreditFlags(v: Viewer): (r: Option<Flags>)
    ensures r.None? <==> v.NoSubscriber?
  {
    match v
    case Anonymous => Some(Flags(false, false, 0))
    case NoSubscriber => None
    case Subscriber(c) =>
      var (about, expired) :=
        if c.None? || c.value == 0 then (false, true)
        else if c.value <= 30 then (true, false)
        else if c.value <= 0 then (false, true)
        else (false, false);
      var shown := if c.Some? then (if c.value - 1 < 0 then 0 else c.value - 1) else 0;
      Some(Flags(about, expired, shown))
  }

  /** For a subscriber: expired exactly when there are no credits (NULL or 0); about to
      expire exactly for any other value up to 30, negative balances included; never
      both. The credits shown are one less than the balance and never below zero, or 0
      when the balance is NULL. An anonymous visitor sees no flag and 0 credits. */
  lemma CreditFlagsMeaning(v: Viewer)
    ensures v.Anonymous? ==> CreditFlags(v) == Some(Flags(false, false, 0))
    ensures v.Subscriber? ==>
              && CreditFlags(v).Some?
              && (CreditFlags(v).value.expired <==> v.credits.None? || v.credits.value == 0)
              && (CreditFlags(v).value.aboutToExpire <==> v.credits.Some? && v.credits.value != 0 && v.credits.value <= 30)
              && !(CreditFlags(v).value.expired && CreditFlags(v).value.aboutToExpire)
              && (v.credits.None? ==> CreditFlags(v).value.credits == 0)
              && (v.credits.Some? && v.credits.value >= 1 ==> CreditFlags(v).value.credits == v.credits.value - 1)
              && (v.credits.Some? && v.credits.value < 1 ==> CreditFlags(v).value.credits == 0)
    ensures CreditFlags(v).Some? ==> CreditFlags(v).value.credits >= 0
  {
  }

  /** A negative balance is reported as about to expire, not as expired. */
  lemma NegativeCreditsNotExpired(c: int)
    requires c < 0
    ensures CreditFlags(Subscriber(Some(c))) == Some(Flags(true, false, 0))
  {
  }

  /** The flags with the `credits <= 0` test placed before `credits <= 30`, so that every
      balance of zero or less counts as expired. */
  function CreditFlagsIntended(v: Viewer): (r: Option<Flags>)
    ensures r.None? <==> v.NoSubscriber?
  {
    match v
    case Anonymous => Some(Flags(false, false, 0))
    case NoSubscriber => None
    case Subscriber(c) =>
      var (about, expired) :=
        if c.None? || c.value <= 0 then (false, true)
        else if c.value <= 30 then (true, false)
        else (false, false);
      var shown := if c.Some? then (if c.value - 1 < 0 then 0 else c.value - 1) else 0;
      Some(Flags(about, expired, shown))
  }

  /** With the tests reordered: expired exactly when no credit is left (NULL, zero or
      negative), about to expire exactly for 1 to 30 credits, never both; the same result
      as the code as written for every balance that is NULL or not negative. */
  lemma IntendedMeaning(v: Viewer)
    ensures v.Subscriber? ==>
              && CreditFlagsIntended(v).Some?
              && (CreditFlagsIntended(v).value.expired <==> v.credits.None? || v.credits.value <= 0)
              && (CreditFlagsIntended(v).value.aboutToExpire <==> v.credits.Some? && 1 <= v.credits.value <= 30)
              && !(CreditFlagsIntended(v).value.expired && CreditFlagsIntended(v).value.aboutToExpire)
    ensures (v.Subscriber? && v.credits.Some? ==> v.credits.value >= 0) ==> CreditFlagsIntended(v) == CreditFlags(v)
  {
  }
}
