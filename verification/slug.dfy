/** The store-slug normaliser of the store editor
    (src/pages/seller/EditStore.tsx): the store name lower-cased and trimmed,
    every character outside `[\w\s-]` removed, every run of `[\s_-]`
    replaced by one `-`, and the leading and trailing dashes removed. */
module Slug {
  import opened Wrappers
  import opened Text

  /** A lower-case ASCII letter or a digit. */
  predicate LowerAlnum(c: char) {
    ('a' <= c <= 'z') || IsDigit(c)
  }

  /** A letter or a digit: `\w` without the underscore. */
  predicate Alnum(c: char) {
    IsWordChar(c) && c != '_'
  }

  /** The characters the first replacement keeps: `[\w\s-]`. */
  predicate Kept(c: char) {
    IsWordChar(c) || IsSpace(c) || c == '-'
  }

  /** The characters the second replacement joins: `[\s_-]`. */
  predicate Joiner(c: char) {
    IsSpace(c) || c == '_' || c == '-'
  }

  predicate NoUpper(s: string) {
    forall i :: 0 <= i < |s| ==> !('A' <= s[i] <= 'Z')
  }

  /** A dash at i and at i + 1. */
  predicate DashPair(s: string, i: int)
    requires 0 <= i < |s| - 1
  {
    s[i] == '-' && s[i + 1] == '-'
  }

  predicate NoDoubleDash(s: string) {
    forall i :: 0 <= i < |s| - 1 ==> !DashPair(s, i)
  }

  /** What a generated slug looks like: `[a-z0-9-]` only, no `--`, and no
      dash at either end. */
  predicate WellFormedSlug(s: string) {
    (forall i :: 0 <= i < |s| ==> LowerAlnum(s[i]) || s[i] == '-')
    && NoDoubleDash(s)
    && (s != [] ==> s[0] != '-' && s[|s| - 1] != '-')
  }

  /** The character itself when it is a letter or a digit, else nothing. */
  function AlnumOf(c: char): string {
    if Alnum(c) then [c] else []
  }

  /** The letters and digits of `s`, in order. */
  function Alnums(s: string): string {
    if s == [] then [] else AlnumOf(s[0]) + Alnums(s[1..])
  }

  lemma {:induction false} AlnumsAppend(a: string, b: string)
    ensures Alnums(a + b) == Alnums(a) + Alnums(b)
    decreases |a|
  {
    if a == [] {
      assert a + b == b;
    } else {
      var ab := a + b;
      assert ab[0] == a[0] && ab[1..] == a[1..] + b;
      AlnumsAppend(a[1..], b);
      calc {
        Alnums(ab);
        AlnumOf(a[0]) + Alnums(a[1..] + b);
        AlnumOf(a[0]) + (Alnums(a[1..]) + Alnums(b));
        (AlnumOf(a[0]) + Alnums(a[1..])) + Alnums(b);
      }
    }
  }

  lemma {:induction false} AlnumsBlank(s: string)
    requires Blank(s)
    ensures Alnums(s) == []
    decreases |s|
  {
    if s != [] {
      AlnumsBlank(s[1..]);
    }
  }

  /** `.replace(/[^\w\s-]/g, '')`. */
  function RemoveUnkept(s: string): (r: string)
    ensures forall i :: 0 <= i < |r| ==> Kept(r[i])
    ensures NoUpper(s) ==> NoUpper(r)
    ensures |r| <= |s|
  {
    if s == [] then [] else (if Kept(s[0]) then [s[0]] else []) + RemoveUnkept(s[1..])
  }

  /** The leading joiners of `s` removed. */
  function DropJoiners(s: string): (r: string)
    ensures |r| <= |s| && r == s[|s| - |r|..]
    ensures r == [] || !Joiner(r[0])
  {
    if s != [] && Joiner(s[0]) then DropJoiners(s[1..]) else s
  }

  /** `.replace(/[\s_-]+/g, '-')`: every maximal run of joiners becomes one
      dash. */
  function Collapse(s: string): (r: string)
    ensures s == [] <==> r == []
    ensures s != [] && Joiner(s[0]) ==> r[0] == '-'
    ensures s != [] && !Joiner(s[0]) ==> r[0] == s[0]
    decreases |s|
  {
    if s == [] then []
    else if Joiner(s[0]) then "-" + Collapse(DropJoiners(s[1..]))
    else [s[0]] + Collapse(s[1..])
  }

  /** `.replace(/^-+|-+$/g, '')`. */
  function StripDashes(s: string): (r: string)
    ensures r == [] || (r[0] != '-' && r[|r| - 1] != '-')
  {
    DropTrailingDashes(DropLeadingDashes(s))
  }

  function DropLeadingDashes(s: string): (r: string)
    ensures |r| <= |s| && r == s[|s| - |r|..]
    ensures r == [] || r[0] != '-'
  {
    if s != [] && s[0] == '-' then DropLeadingDashes(s[1..]) else s
  }

  function DropTrailingDashes(s: string): (r: string)
    ensures |r| <= |s| && r == s[..|r|]
    ensures r == [] || r[|r| - 1] != '-'
  {
    if s != [] && s[|s| - 1] == '-' then DropTrailingDashes(s[..|s| - 1]) else s
  }

  /** The slug generated from a store name. */
  function Slugify(name: string): string {
    StripDashes(Collapse(RemoveUnkept(Trim(Lower(name)))))
  }

  // The character classes through the stages.

  lemma LowerNoUpper(s: string)
    ensures NoUpper(Lower(s))
  {
    forall i | 0 <= i < |s|
      ensures !('A' <= Lower(s)[i] <= 'Z')
    {
      assert Lower(s)[i] == LowerChar(s[i]);
    }
  }

  lemma TrimNoUpper(s: string)
    requires NoUpper(s)
    ensures NoUpper(Trim(s))
  {
    var r := Trim(s);
    var k :| TrimmedAt(s, r, k);
    forall i | 0 <= i < |r|
      ensures !('A' <= r[i] <= 'Z')
    {
      assert r[i] == s[k + i];
    }
  }

  /** Putting a character in front of a text without `--` keeps it
      without `--`, unless a dash meets a dash. */
  lemma PrependNoDoubleDash(x: char, c: string)
    requires NoDoubleDash(c)
    requires x == '-' ==> c == [] || c[0] != '-'
    ensures NoDoubleDash([x] + c)
  {
    var r := [x] + c;
    forall i | 0 <= i < |r| - 1
      ensures !DashPair(r, i)
    {
      if i > 0 {
        assert r[i] == c[i - 1] && r[i + 1] == c[i];
        assert !DashPair(c, i - 1);
      }
    }
  }

  /** A joined run becomes a dash followed by a non-dash, so collapsing
      never leaves two dashes in a row. */
  lemma {:induction false} CollapseNoDoubleDash(s: string)
    ensures NoDoubleDash(Collapse(s))
    decreases |s|
  {
    if s != [] {
      if Joiner(s[0]) {
        var t := DropJoiners(s[1..]);
        CollapseNoDoubleDash(t);
        PrependNoDoubleDash('-', Collapse(t));
        assert Collapse(s) == "-" + Collapse(t);
      } else {
        CollapseNoDoubleDash(s[1..]);
        PrependNoDoubleDash(s[0], Collapse(s[1..]));
        assert Collapse(s) == [s[0]] + Collapse(s[1..]);
      }
    }
  }

  predicate AlnumsAndJoiners(s: string) {
    forall i :: 0 <= i < |s| ==> LowerAlnum(s[i]) || Joiner(s[i])
  }

  predicate AlnumsAndDashes(s: string) {
    forall i :: 0 <= i < |s| ==> LowerAlnum(s[i]) || s[i] == '-'
  }

  lemma DropJoinersClasses(s: string)
    requires AlnumsAndJoiners(s)
    ensures AlnumsAndJoiners(DropJoiners(s))
  {
    var t := DropJoiners(s);
    assert forall i :: 0 <= i < |t| ==> t[i] == s[|s| - |t| + i];
  }

  lemma PrependClasses(c: char, t: string)
    requires LowerAlnum(c) || c == '-'
    requires AlnumsAndDashes(t)
    ensures AlnumsAndDashes([c] + t)
  {
    assert forall i :: 1 <= i < |[c] + t| ==> ([c] + t)[i] == t[i - 1];
  }

  /** Collapsing text of letters, digits and joiners leaves letters, digits
      and dashes. */
  lemma {:induction false} CollapseChars(s: string)
    requires AlnumsAndJoiners(s)
    ensures AlnumsAndDashes(Collapse(s))
    decreases |s|
  {
    if s != [] {
      assert AlnumsAndJoiners(s[1..]) by {
        assert forall i :: 0 <= i < |s[1..]| ==> s[1..][i] == s[i + 1];
      }
      if Joiner(s[0]) {
        var t := DropJoiners(s[1..]);
        DropJoinersClasses(s[1..]);
        CollapseChars(t);
        PrependClasses('-', Collapse(t));
      } else {
        CollapseChars(s[1..]);
        PrependClasses(s[0], Collapse(s[1..]));
      }
    }
  }

  lemma KeptClasses(s: string)
    requires NoUpper(s)
    ensures AlnumsAndJoiners(RemoveUnkept(s))
  {
  }

  /** A piece of text of letters, digits and single dashes is such text too. */
  lemma SliceShape(s: string, t: string, lo: nat)
    requires lo + |t| <= |s| && forall i :: 0 <= i < |t| ==> t[i] == s[lo + i]
    requires AlnumsAndDashes(s) && NoDoubleDash(s)
    ensures AlnumsAndDashes(t) && NoDoubleDash(t)
  {
    forall i | 0 <= i < |t| - 1
      ensures !DashPair(t, i)
    {
      assert !DashPair(s, lo + i);
    }
  }

  lemma SuffixShape(s: string, t: string)
    requires |t| <= |s| && t == s[|s| - |t|..]
    requires AlnumsAndDashes(s) && NoDoubleDash(s)
    ensures AlnumsAndDashes(t) && NoDoubleDash(t)
  {
    SliceShape(s, t, |s| - |t|);
  }

  lemma PrefixShape(s: string, t: string)
    requires |t| <= |s| && t == s[..|t|]
    requires AlnumsAndDashes(s) && NoDoubleDash(s)
    ensures AlnumsAndDashes(t) && NoDoubleDash(t)
  {
    SliceShape(s, t, 0);
  }

  lemma StripShape(s: string)
    requires AlnumsAndDashes(s)
    requires NoDoubleDash(s)
    ensures WellFormedSlug(StripDashes(s))
  {
    var a := DropLeadingDashes(s);
    SuffixShape(s, a);
    var r := DropTrailingDashes(a);
    PrefixShape(a, r);
  }

  /** A generated slug is well formed, whatever the store name. */
  lemma SlugWellFormed(name: string)
    ensures WellFormedSlug(Slugify(name))
  {
    var t := Trim(Lower(name));
    LowerNoUpper(name);
    TrimNoUpper(Lower(name));
    var u := RemoveUnkept(t);
    KeptClasses(t);
    CollapseChars(u);
    CollapseNoDoubleDash(u);
    StripShape(Collapse(u));
  }

  // The letters and digits through the stages.

  lemma {:induction false} RemoveKeepsAlnums(s: string)
    ensures Alnums(RemoveUnkept(s)) == Alnums(s)
    decreases |s|
  {
    if s != [] {
      RemoveKeepsAlnums(s[1..]);
      AlnumsAppend(if Kept(s[0]) then [s[0]] else [], RemoveUnkept(s[1..]));
    }
  }

  lemma {:induction false} DropJoinersAlnums(s: string)
    ensures Alnums(DropJoiners(s)) == Alnums(s)
    decreases |s|
  {
    if s != [] && Joiner(s[0]) {
      DropJoinersAlnums(s[1..]);
      assert DropJoiners(s) == DropJoiners(s[1..]);
      assert AlnumOf(s[0]) == [];
      assert Alnums(s) == AlnumOf(s[0]) + Alnums(s[1..]);
    }
  }

  lemma {:induction false} CollapseKeepsAlnums(s: string)
    ensures Alnums(Collapse(s)) == Alnums(s)
    decreases |s|
  {
    if s != [] {
      assert Alnums(s) == AlnumOf(s[0]) + Alnums(s[1..]);
      if Joiner(s[0]) {
        var t := DropJoiners(s[1..]);
        CollapseKeepsAlnums(t);
        DropJoinersAlnums(s[1..]);
        assert Collapse(s) == "-" + Collapse(t);
        AlnumsAppend("-", Collapse(t));
        assert Alnums("-") == [] && AlnumOf(s[0]) == [];
      } else {
        CollapseKeepsAlnums(s[1..]);
        assert Collapse(s) == [s[0]] + Collapse(s[1..]);
        AlnumsAppend([s[0]], Collapse(s[1..]));
        assert Alnums([s[0]]) == AlnumOf(s[0]) + Alnums([]);
      }
    }
  }

  lemma {:induction false} LeadingDashesAlnums(s: string)
    ensures Alnums(DropLeadingDashes(s)) == Alnums(s)
    decreases |s|
  {
    if s != [] && s[0] == '-' {
      LeadingDashesAlnums(s[1..]);
    }
  }

  lemma {:induction false} TrailingDashesAlnums(s: string)
    ensures Alnums(DropTrailingDashes(s)) == Alnums(s)
    decreases |s|
  {
    if s != [] && s[|s| - 1] == '-' {
      var p := s[..|s| - 1];
      TrailingDashesAlnums(p);
      assert s == p + "-";
      AlnumsAppend(p, "-");
    }
  }

  /** Only white space lies around an infix, so it has all the letters and
      digits. */
  lemma InfixAlnums(s: string, r: string, k: int)
    requires TrimmedAt(s, r, k)
    ensures Alnums(r) == Alnums(s)
  {
    var a, b := s[..k], s[k + |r|..];
    assert s == a + r + b;
    AlnumsAppend(a + r, b);
    AlnumsAppend(a, r);
    AlnumsBlank(a);
    AlnumsBlank(b);
  }

  lemma TrimKeepsAlnums(s: string)
    ensures Alnums(Trim(s)) == Alnums(s)
  {
    var r := Trim(s);
    var k :| TrimmedAt(s, r, k);
    InfixAlnums(s, r, k);
  }

  /** The slug keeps exactly the letters and digits of the lower-cased
      name, in order: nothing but punctuation, white space and underscores
      is lost. */
  lemma SlugKeepsAlnums(name: string)
    ensures Alnums(Slugify(name)) == Alnums(Lower(name))
  {
    var t := Trim(Lower(name));
    TrimKeepsAlnums(Lower(name));
    RemoveKeepsAlnums(t);
    CollapseKeepsAlnums(RemoveUnkept(t));
    LeadingDashesAlnums(Collapse(RemoveUnkept(t)));
    TrailingDashesAlnums(DropLeadingDashes(Collapse(RemoveUnkept(t))));
  }

  // A well-formed slug is a fixed point.

  lemma {:induction false} LowerSlugChars(s: string)
    requires forall i :: 0 <= i < |s| ==> LowerAlnum(s[i]) || s[i] == '-'
    ensures Lower(s) == s
  {
    assert forall i :: 0 <= i < |s| ==> Lower(s)[i] == LowerChar(s[i]) == s[i];
  }

  lemma {:induction false} RemoveSlugChars(s: string)
    requires forall i :: 0 <= i < |s| ==> LowerAlnum(s[i]) || s[i] == '-'
    ensures RemoveUnkept(s) == s
    decreases |s|
  {
    if s != [] {
      RemoveSlugChars(s[1..]);
      assert s == [s[0]] + s[1..];
    }
  }

  /** Text of letters, digits and single dashes, ending in a dash only
      when it is a lone dash. */
  predicate SlugBody(s: string) {
    AlnumsAndDashes(s) && NoDoubleDash(s) && (|s| > 1 ==> s[|s| - 1] != '-')
  }

  lemma SlugBodyTail(s: string)
    requires SlugBody(s) && s != []
    ensures SlugBody(s[1..])
    ensures |s| > 1 ==> s[1] != '-' || s[0] != '-'
  {
    SliceShape(s, s[1..], 1);
    if |s| > 1 {
      assert !DashPair(s, 0);
    }
  }

  lemma CollapseCons(s: string)
    requires s != [] && !Joiner(s[0])
    ensures Collapse(s) == [s[0]] + Collapse(s[1..])
  {
  }

  lemma CollapseDash(s: string)
    requires s != [] && s[0] == '-' && (|s| > 1 ==> !Joiner(s[1]))
    ensures Collapse(s) == "-" + Collapse(s[1..])
  {
    assert DropJoiners(s[1..]) == s[1..];
  }

  /** Collapsing leaves `s` alone: every character is a non-joiner or a
      dash, and a dash is followed by a non-joiner or ends the text. */
  predicate NothingToJoin(s: string) {
    s == [] ||
    ((if s[0] == '-' then |s| == 1 || !Joiner(s[1]) else !Joiner(s[0])) && NothingToJoin(s[1..]))
  }

  lemma {:induction false} SlugBodyNothingToJoin(s: string)
    requires SlugBody(s)
    ensures NothingToJoin(s)
    decreases |s|
  {
    if s != [] {
      SlugBodyTail(s);
      SlugBodyNothingToJoin(s[1..]);
      if s[0] == '-' && |s| > 1 {
        assert LowerAlnum(s[1]);
      } else {
        assert LowerAlnum(s[0]) || s[0] == '-';
      }
    }
  }

  lemma {:induction false} CollapseSlugChars(s: string)
    requires NothingToJoin(s)
    ensures Collapse(s) == s
    decreases |s|
  {
    if s != [] {
      CollapseSlugChars(s[1..]);
      if s[0] == '-' {
        CollapseDash(s);
      } else {
        CollapseCons(s);
      }
      assert s == [s[0]] + s[1..];
    }
  }

  /** Slugifying a well-formed slug gives it back. */
  lemma SlugFixed(s: string)
    requires WellFormedSlug(s)
    ensures Slugify(s) == s
  {
    LowerSlugChars(s);
    TrimUnchanged(s);
    RemoveSlugChars(s);
    SlugBodyNothingToJoin(s);
    CollapseSlugChars(s);
  }

  /** Normalising twice is normalising once. */
  lemma SlugIdempotent(name: string)
    ensures Slugify(Slugify(name)) == Slugify(name)
  {
    SlugWellFormed(name);
    SlugFixed(Slugify(name));
  }

  /** A well-formed slug that is not empty starts with a letter or digit. */
  lemma WellFormedHasAlnum(s: string)
    requires WellFormedSlug(s) && s != []
    ensures Alnums(s) != []
  {
    assert Alnum(s[0]);
    assert Alnums(s) == AlnumOf(s[0]) + Alnums(s[1..]);
  }

  /** The slug is empty exactly when the name has no letter or digit. */
  lemma SlugEmpty(name: string)
    ensures WellFormedSlug(Slugify(name))
    ensures Slugify(name) == [] <==> Alnums(Lower(name)) == []
  {
    SlugWellFormed(name);
    SlugKeepsAlnums(name);
    if Slugify(name) != [] {
      WellFormedHasAlnum(Slugify(name));
    }
  }

  /** handleSave's slug: the stored one when there is a non-empty one,
      otherwise the generated one, and null when that is empty. */
  function StoreSlug(stored: Option<string>, storeName: string): (r: Option<string>)
    ensures stored.Some? && stored.value != "" ==> r == stored
    ensures (stored.None? || stored.value == "") ==> (r.None? <==> Alnums(Lower(storeName)) == [])
    ensures (stored.None? || stored.value == "") && r.Some? ==> WellFormedSlug(r.value)
  {
    if stored.Some? && stored.value != "" then stored
    else
      SlugEmpty(storeName);
      EmptyToNull(Slugify(storeName))
  }
}
