/** The idempotency keys under which points are booked, one constructor for
    each place in the server that builds one. */
module Keys {
  import opened Text

  const KEY_LIMIT: nat := 128

  datatype Source =
    | Signup(user: nat)
    | Checkin(user: nat, day: string)
    | Donate(donation: nat)
    | DonateDay(donation: nat, day: string)
    | Refund(orderNo: string)
    | ApiGrant(header: string)
    | ApiDeduct(header: string)

  function Family(s: Source): string {
    match s
    case Signup(_) => "signup"
    case Checkin(_, _) => "checkin"
    case Donate(_) => "donate"
    case DonateDay(_, _) => "donate_day"
    case Refund(_) => "refund"
    case ApiGrant(_) => "api_grant"
    case ApiDeduct(_) => "api_deduct"
  }

  function Payload(s: Source): string {
    match s
    case Signup(u) => Dec(u)
    case Checkin(u, day) => Dec(u) + ":" + day
    case Donate(d) => Dec(d)
    case DonateDay(d, day) => Dec(d) + ":" + day
    case Refund(no) => no
    case ApiGrant(h) => h
    case ApiDeduct(h) => h
  }

  function KeyOf(s: Source): string {
    Family(s) + ":" + Payload(s)
  }

  /** The keys as they are stored. */
  lemma KeyTexts(id: nat, text: string)
    ensures KeyOf(Signup(id)) == "signup:" + Dec(id)
    ensures KeyOf(Donate(id)) == "donate:" + Dec(id)
    ensures KeyOf(Refund(text)) == "refund:" + text
    ensures KeyOf(ApiGrant(text)) == "api_grant:" + text
    ensures KeyOf(ApiDeduct(text)) == "api_deduct:" + text
  {
    hide Dec;
  }

  lemma DayKeyTexts(id: nat, day: string)
    ensures KeyOf(Checkin(id, day)) == "checkin:" + Dec(id) + ":" + day
    ensures KeyOf(DonateDay(id, day)) == "donate_day:" + Dec(id) + ":" + day
  {
    hide Dec;
    assert ("checkin" + ":") + (Dec(id) + ":" + day) == "checkin:" + Dec(id) + ":" + day;
    assert ("donate_day" + ":") + (Dec(id) + ":" + day) == "donate_day:" + Dec(id) + ":" + day;
  }

  /** The families are pairwise disjoint and each one is injective: a key
      determines the operation it was built for. */
  lemma KeysInjective(a: Source, b: Source)
    requires KeyOf(a) == KeyOf(b)
    ensures a == b
  {
    SplitAtColon(Family(a), Payload(a), Family(b), Payload(b));
    match a {
      case Signup(u) => DecInjective(u, b.user);
      case Checkin(u, day) =>
        SplitAtColon(Dec(u), day, Dec(b.user), b.day);
        DecInjective(u, b.user);
      case Donate(d) => DecInjective(d, b.donation);
      case DonateDay(d, day) =>
        SplitAtColon(Dec(d), day, Dec(b.donation), b.day);
        DecInjective(d, b.donation);
      case Refund(_) =>
      case ApiGrant(_) =>
      case ApiDeduct(_) =>
    }
  }

  /** The key belongs to the family of s, whatever follows the colon. */
  ghost predicate InFamily(key: string, s: Source) {
    exists rest :: key == Family(s) + ":" + rest
  }

  lemma FamilyHasNoColon(s: Source)
    ensures ':' !in Family(s) && |Family(s)| <= 10
  {
  }

  /** Cutting a key to the column width never moves it into another family. */
  lemma TruncationKeepsFamily(a: Source, b: Source)
    requires InFamily(Truncate(KeyOf(a), KEY_LIMIT), b)
    ensures Family(a) == Family(b)
  {
    FamilyHasNoColon(a);
    FamilyHasNoColon(b);
    var fa, fb := Family(a), Family(b);
    var key := fa + ":" + Payload(a);
    var rest :| Truncate(key, KEY_LIMIT) == fb + ":" + rest;
    var room := KEY_LIMIT - |fa| - 1;
    assert Truncate(key, KEY_LIMIT) == fa + ":" + Truncate(Payload(a), room);
    SplitAtColon(fa, Truncate(Payload(a), room), fb, rest);
  }

  /** What the server can build itself: 64-bit ids, ten-byte dates and order
      numbers that fit their 32-byte column. */
  predicate Internal(s: Source) {
    match s
    case Signup(u) => u < Pow10(20)
    case Checkin(u, day) => u < Pow10(20) && |day| == 10
    case Donate(d) => d < Pow10(20)
    case DonateDay(d, day) => d < Pow10(20) && |day| == 10
    case Refund(no) => |no| <= 32
    case ApiGrant(_) => false
    case ApiDeduct(_) => false
  }

  /** Only keys taken from the Idempotency-Key header can exceed the column. */
  lemma InternalKeysFit(s: Source)
    requires Internal(s)
    ensures |KeyOf(s)| <= 42 && Truncate(KeyOf(s), KEY_LIMIT) == KeyOf(s)
  {
    match s {
      case Signup(u) => DecLength(u, 20);
      case Checkin(u, _) => DecLength(u, 20);
      case Donate(d) => DecLength(d, 20);
      case DonateDay(d, _) => DecLength(d, 20);
      case Refund(_) =>
    }
  }
}
