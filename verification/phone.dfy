/** The Congo phone-number pattern shared by the store editor
    (src/pages/seller/EditStore.tsx) and the account settings
    (src/pages/profile/AccountSettings.tsx):
    `^(\+242\s?)?0[56][\s\-]?\d{3}[\s\-]?\d{2}[\s\-]?\d{2}$` on the trimmed
    input, an empty field being accepted. The pattern is recognised by a
    parser that returns the pieces it read; rendering those pieces gives
    the input back, and parsing a rendering gives the pieces back. */
module Phone {
  import opened Wrappers
  import opened Text

  /** `[\s\-]`. */
  predicate IsSeparator(c: char) {
    IsSpace(c) || c == '-'
  }

  /** The optional country code: absent, `+242`, or `+242` and one space. */
  datatype Prefix = NoPrefix | Bare | Spaced(space: char)

  function PrefixText(p: Prefix): string {
    match p
    case NoPrefix => ""
    case Bare => "+242"
    case Spaced(c) => "+242" + [c]
  }

  /** A digit group and the separator that may precede it. */
  datatype Group = Group(sep: Option<char>, digits: string)

  function GroupText(g: Group): string {
    (if g.sep.Some? then [g.sep.value] else "") + g.digits
  }

  predicate GroupOk(g: Group, n: nat) {
    (g.sep.Some? ==> IsSeparator(g.sep.value)) && |g.digits| == n && AllDigits(g.digits)
  }

  /** The pieces of a number: prefix, the operator digit after the leading
      0, and the 3-2-2 digit groups. */
  datatype Number = Number(prefix: Prefix, operator: char, g1: Group, g2: Group, g3: Group)

  predicate NumberOk(n: Number) {
    (n.prefix.Spaced? ==> IsSpace(n.prefix.space)) && (n.operator == '5' || n.operator == '6')
    && GroupOk(n.g1, 3) && GroupOk(n.g2, 2) && GroupOk(n.g3, 2)
  }

  function GroupsText(g1: Group, g2: Group, g3: Group): string {
    GroupText(g1) + GroupText(g2) + GroupText(g3)
  }

  /** The text a number is written as. */
  function Render(n: Number): string {
    PrefixText(n.prefix) + (['0', n.operator] + GroupsText(n.g1, n.g2, n.g3))
  }

  /** Reads an optional separator and `n` digits. */
  function ReadGroup(t: string, n: nat): (r: Option<(Group, string)>)
    ensures r.Some? ==> GroupOk(r.value.0, n) && GroupText(r.value.0) + r.value.1 == t
  {
    var sep := if |t| > 0 && IsSeparator(t[0]) then Some(t[0]) else None;
    var u := if sep.Some? then t[1..] else t;
    if |u| >= n && AllDigits(u[..n]) then
      assert GroupText(Group(sep, u[..n])) + u[n..] == t by {
        if sep.Some? { assert t == [t[0]] + t[1..]; }
      }
      Some((Group(sep, u[..n]), u[n..]))
    else None
  }

  /** Reads the optional `+242` and the space after it. */
  function ReadPrefix(s: string): (r: (Prefix, string))
    ensures PrefixText(r.0) + r.1 == s
    ensures r.0.Spaced? ==> IsSpace(r.0.space)
  {
    if |s| >= 4 && s[..4] == "+242" then
      if |s| > 4 && IsSpace(s[4]) then
        assert s == s[..4] + [s[4]] + s[5..];
        (Spaced(s[4]), s[5..])
      else
        assert s == s[..4] + s[4..];
        (Bare, s[4..])
    else (NoPrefix, s)
  }

  /** Reads the three digit groups and requires the end of the text after them. */
  function ReadGroups(t: string): (r: Option<(Group, Group, Group)>)
    ensures r.Some? ==> GroupOk(r.value.0, 3) && GroupOk(r.value.1, 2) && GroupOk(r.value.2, 2)
                        && GroupsText(r.value.0, r.value.1, r.value.2) == t
  {
    match ReadGroup(t, 3)
    case None => None
    case Some((g1, t1)) =>
      match ReadGroup(t1, 2)
      case None => None
      case Some((g2, t2)) =>
        match ReadGroup(t2, 2)
        case None => None
        case Some((g3, t3)) =>
          if t3 == [] then
            assert GroupText(g3) == t2;
            assert GroupText(g1) + GroupText(g2) + GroupText(g3) == GroupText(g1) + (GroupText(g2) + GroupText(g3));
            Some((g1, g2, g3))
          else None
  }

  /** The recogniser: the pieces of `s`, or None when `s` does not match. */
  function Parse(s: string): (r: Option<Number>)
    ensures r.Some? ==> NumberOk(r.value) && Render(r.value) == s
  {
    var (p, t) := ReadPrefix(s);
    if |t| >= 2 && t[0] == '0' && (t[1] == '5' || t[1] == '6') then
      match ReadGroups(t[2..])
      case None => None
      case Some((g1, g2, g3)) =>
        assert t == ['0', t[1]] + t[2..];
        Some(Number(p, t[1], g1, g2, g3))
    else None
  }

  /** A group followed by anything is read back as that group. */
  lemma ReadGroupRendered(g: Group, n: nat, rest: string)
    requires GroupOk(g, n) && n > 0
    ensures ReadGroup(GroupText(g) + rest, n) == Some((g, rest))
  {
    var t := GroupText(g) + rest;
    if g.sep.Some? {
      assert t[0] == g.sep.value && t[1..] == g.digits + rest;
    } else {
      assert t == g.digits + rest;
      assert IsDigit(t[0]);
    }
  }

  lemma ReadPrefixRendered(p: Prefix, rest: string)
    requires p.Spaced? ==> IsSpace(p.space)
    requires |rest| > 0 && rest[0] == '0'
    ensures ReadPrefix(PrefixText(p) + rest) == (p, rest)
  {
    var s := PrefixText(p) + rest;
    match p
    case NoPrefix =>
      assert s == rest;
      assert |s| >= 4 ==> s[..4][0] == '0';
    case Bare =>
      assert s[..4] == "+242" && s[4] == '0' && s[4..] == rest;
    case Spaced(c) =>
      assert s[..4] == "+242" && s[4] == c && s[5..] == rest;
  }

  /** Three well-formed groups are read back by ReadGroups. */
  lemma ReadGroupsRendered(g1: Group, g2: Group, g3: Group)
    requires GroupOk(g1, 3) && GroupOk(g2, 2) && GroupOk(g3, 2)
    ensures ReadGroups(GroupsText(g1, g2, g3)) == Some((g1, g2, g3))
  {
    var t3 := GroupText(g3);
    var t2 := GroupText(g2) + t3;
    assert GroupsText(g1, g2, g3) == GroupText(g1) + t2;
    ReadGroupRendered(g1, 3, t2);
    ReadGroupRendered(g2, 2, t3);
    ReadGroupRendered(g3, 2, []);
    assert GroupText(g3) + [] == t3;
  }

  /** Parsing the rendering of well-formed pieces gives the pieces back. */
  lemma ParseRender(n: Number)
    requires NumberOk(n)
    ensures Parse(Render(n)) == Some(n)
  {
    var t1 := GroupsText(n.g1, n.g2, n.g3);
    var t := ['0', n.operator] + t1;
    ReadPrefixRendered(n.prefix, t);
    assert t[2..] == t1;
    ReadGroupsRendered(n.g1, n.g2, n.g3);
  }

  /** validatePhoneNumber: an empty field, or a trimmed value matching the
      pattern. */
  predicate ValidPhone(phone: string) {
    phone == "" || Parse(Trim(phone)).Some?
  }

  /** A rendering starts with `+` or `0` and ends with a digit. */
  lemma RenderEnds(n: Number)
    requires NumberOk(n)
    ensures |Render(n)| > 0 && !IsSpace(Render(n)[0]) && !IsSpace(Render(n)[|Render(n)| - 1])
  {
    var s := Render(n);
    var local := ['0', n.operator] + GroupsText(n.g1, n.g2, n.g3);
    assert s[|s| - 1] == local[|local| - 1] == n.g3.digits[1];
    assert s[0] == '+' || s[0] == '0';
  }

  /** A number written from well-formed pieces is accepted. */
  lemma ValidPhoneComplete(n: Number)
    requires NumberOk(n)
    ensures ValidPhone(Render(n))
  {
    RenderEnds(n);
    TrimUnchanged(Render(n));
    ParseRender(n);
  }

  /** The two example numbers of the format hint, as pieces. */
  const SpacedExample := Number(Spaced(' '), '6', Group(Some(' '), "123"), Group(Some(' '), "12"), Group(None, "44"))
  const DashedExample := Number(NoPrefix, '6', Group(Some('-'), "961"), Group(Some('-'), "12"), Group(Some('-'), "33"))

  /** The two formats the hint advertises are renderings of well-formed
      pieces, and so are accepted (ValidPhoneComplete). */
  lemma AdvertisedFormatsWellFormed()
    ensures NumberOk(SpacedExample) && Render(SpacedExample) == "+242 06 123 1244"
    ensures NumberOk(DashedExample) && Render(DashedExample) == "06-961-12-33"
  {
  }

  /** The error under the field: shown exactly when the value is invalid
      (the empty value being valid). */
  function PhoneError(value: string, message: string): (r: Option<string>)
    ensures r.Some? <==> !ValidPhone(value)
    ensures r.Some? ==> r.value == message
  {
    if value != "" && !ValidPhone(value) then Some(message) else None
  }

  const StoreFormatHint := "Format invalide. Ex: +242 06 123 1244 ou 06-961-12-33"
  const AccountFormatHint := "Format invalide. Ex: +242 06 123 1244"
}
