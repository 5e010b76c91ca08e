/** The link syntax of chat messages (renderMessageContent in
    src/pages/chat/ChatRoom.tsx): the content is split on
    `/(\[.*?\]\(.*?\))/g`, and every piece that matches `[label](url)` is
    shown as a link. The regular expression is written out: `.` stops at
    line terminators, and both `.*?` are lazy, so a link is `[`, a label up
    to the first `](`, and a url up to the first `)`. */
module Links {
  import opened Wrappers
  import opened Text

  /** The characters JavaScript's `.` does not match. */
  predicate LineTerm(c: char) {
    c == '\n' || c == '\r' || c == '\U{2028}' || c == '\U{2029}'
  }

  /** `](` starts at position m. */
  predicate LabelClose(s: string, m: int)
    requires 0 <= m
  {
    m + 1 < |s| && s[m] == ']' && s[m + 1] == '('
  }

  /** A character the lazy label may pass over: not a line terminator,
      and not the start of `](`. */
  predicate LabelChar(s: string, m: int)
    requires 0 <= m < |s|
  {
    !LineTerm(s[m]) && !LabelClose(s, m)
  }

  /** A character the lazy url may pass over. */
  predicate UrlChar(s: string, m: int)
    requires 0 <= m < |s|
  {
    !LineTerm(s[m]) && s[m] != ')'
  }

  /** The regular expression matches at p: `[` at p, the first `](` of the
      line at k, and the first `)` of the line after it at c. */
  predicate LinkSpan(s: string, p: int, k: int, c: int) {
    0 <= p < k && k + 1 < c < |s| && s[p] == '[' && s[k] == ']' && s[k + 1] == '(' && s[c] == ')'
    && (forall m :: p < m < k ==> LabelChar(s, m))
    && (forall m :: k + 1 < m < c ==> UrlChar(s, m))
  }

  ghost predicate HasLinkAt(s: string, p: int) {
    exists k, c :: LinkSpan(s, p, k, c)
  }

  /** No link starts anywhere in `t`: `t.match(...)` is null. */
  ghost predicate NoLinkIn(t: string) {
    forall m :: 0 <= m < |t| ==> !HasLinkAt(t, m)
  }

  /** The lazy label: the first `](` from j on the same line. */
  function FindLabelEnd(s: string, j: nat): (r: Option<nat>)
    requires j <= |s|
    ensures r.Some? ==> j <= r.value && LabelClose(s, r.value)
                        && forall m :: j <= m < r.value ==> LabelChar(s, m)
    decreases |s| - j
  {
    if j + 1 >= |s| then None
    else if s[j] == ']' && s[j + 1] == '(' then Some(j)
    else if LineTerm(s[j]) then None
    else FindLabelEnd(s, j + 1)
  }

  /** The lazy url: the first `)` from j on the same line. */
  function FindClose(s: string, j: nat): (r: Option<nat>)
    requires j <= |s|
    ensures r.Some? ==> j <= r.value < |s| && s[r.value] == ')'
                        && forall m :: j <= m < r.value ==> UrlChar(s, m)
    decreases |s| - j
  {
    if j >= |s| then None
    else if s[j] == ')' then Some(j)
    else if LineTerm(s[j]) then None
    else FindClose(s, j + 1)
  }

  /** The matcher at one position: the label end and the closing bracket. */
  function MatchAt(s: string, p: nat): (r: Option<(nat, nat)>)
    requires p < |s|
    ensures r.Some? ==> LinkSpan(s, p, r.value.0, r.value.1)
  {
    if s[p] != '[' then None
    else
      match FindLabelEnd(s, p + 1)
      case None => None
      case Some(k) =>
        match FindClose(s, k + 2)
        case None => None
        case Some(c) => Some((k, c))
  }

  lemma {:induction false} LabelEndFirst(s: string, j: nat, k: nat)
    requires j <= k && LabelClose(s, k)
    requires forall m :: j <= m < k ==> LabelChar(s, m)
    ensures FindLabelEnd(s, j) == Some(k)
    decreases k - j
  {
    if j < k {
      assert LabelChar(s, j);
      LabelEndFirst(s, j + 1, k);
    }
  }

  lemma {:induction false} CloseFirst(s: string, j: nat, c: nat)
    requires j <= c < |s| && s[c] == ')'
    requires forall m :: j <= m < c ==> UrlChar(s, m)
    ensures FindClose(s, j) == Some(c)
    decreases c - j
  {
    if j < c {
      assert UrlChar(s, j);
      CloseFirst(s, j + 1, c);
    }
  }

  /** Every span the regular expression admits is the one the matcher
      finds: the match at a position is unique, and the matcher misses none. */
  lemma SpanIsMatch(s: string, p: nat, k: nat, c: nat)
    requires LinkSpan(s, p, k, c)
    ensures MatchAt(s, p) == Some((k, c))
  {
    LabelEndFirst(s, p + 1, k);
    CloseFirst(s, k + 2, c);
  }

  lemma NoMatchNoLink(s: string, p: nat)
    requires p < |s| && MatchAt(s, p).None?
    ensures !HasLinkAt(s, p)
  {
    if HasLinkAt(s, p) {
      var k, c :| LinkSpan(s, p, k, c);
      SpanIsMatch(s, p, k, c);
    }
  }

  /** A match inside a piece of the text is a match in the whole text. */
  lemma SpanShift(s: string, a: nat, b: nat, p: int, k: int, c: int)
    requires a <= b <= |s| && LinkSpan(s[a..b], p, k, c)
    ensures LinkSpan(s, a + p, a + k, a + c)
  {
    var t := s[a..b];
    assert forall i :: 0 <= i < |t| ==> t[i] == s[a + i];
    forall m | a + p < m < a + k
      ensures LabelChar(s, m)
    {
      assert LabelChar(t, m - a);
    }
    forall m | a + k + 1 < m < a + c
      ensures UrlChar(s, m)
    {
      assert UrlChar(t, m - a);
    }
  }

  /** The matched text alone is a match at its start. */
  lemma SpanCut(s: string, q: int, k: int, c: int)
    requires LinkSpan(s, q, k, c)
    ensures LinkSpan(s[q..c + 1], 0, k - q, c - q)
  {
    var t := s[q..c + 1];
    assert forall i :: 0 <= i < |t| ==> t[i] == s[q + i];
    forall m | 0 < m < k - q
      ensures LabelChar(t, m)
    {
      assert LabelChar(s, q + m);
    }
    forall m | k - q + 1 < m < c - q
      ensures UrlChar(t, m)
    {
      assert UrlChar(s, q + m);
    }
  }

  /** `[` at q, `](` at k and `)` at c. */
  predicate Bracketed(s: string, q: int, k: int, c: int) {
    0 <= q < k && k + 1 < c < |s| && s[q] == '[' && s[k] == ']' && s[k + 1] == '(' && s[c] == ')'
  }

  /** The first match at or after p. */
  function NextLink(s: string, p: nat): (r: Option<(nat, nat, nat)>)
    requires p <= |s|
    ensures r.Some? ==> p <= r.value.0 < r.value.1 && r.value.1 + 2 <= r.value.2 < |s|
    ensures r.Some? ==> Bracketed(s, r.value.0, r.value.1, r.value.2)
    decreases |s| - p
  {
    if p == |s| then None
    else
      match MatchAt(s, p)
      case Some((k, c)) => Some((p, k, c))
      case None => NextLink(s, p + 1)
  }

  /** NextLink finds the leftmost match: a match where it stops, and none
      before it. */
  lemma {:induction false} NextLinkLeftmost(s: string, p: nat)
    requires p <= |s|
    ensures NextLink(s, p).Some? ==>
              var (q, k, c) := NextLink(s, p).value;
              LinkSpan(s, q, k, c) && forall m :: p <= m < q ==> MatchAt(s, m).None?
    ensures NextLink(s, p).None? ==> forall m :: p <= m < |s| ==> MatchAt(s, m).None?
    decreases |s| - p
  {
    if p < |s| && MatchAt(s, p).None? {
      NextLinkLeftmost(s, p + 1);
    }
  }

  /** A piece of the split content and how it is shown. */
  datatype Part = Plain(text: string) | Link(linkText: string, url: string)

  function PartText(part: Part): string {
    match part
    case Plain(t) => t
    case Link(l, u) => "[" + l + "](" + u + ")"
  }

  function Concat(parts: seq<Part>): string {
    if |parts| == 0 then "" else PartText(parts[0]) + Concat(parts[1..])
  }

  /** Bracketed link positions `(q, k, c)` in order, each after the
      previous one. */
  predicate Ordered(s: string, p: nat, spans: seq<(nat, nat, nat)>)
    decreases |spans|
  {
    p <= |s| &&
    (|spans| == 0 ||
     (var (q, k, c) := spans[0];
      p <= q && Bracketed(s, q, k, c) && Ordered(s, c + 1, spans[1..])))
  }

  /** The matches `content.split(...)` splits on, from position p: each is
      the leftmost match after the previous one. */
  function Matches(s: string, p: nat): (r: seq<(nat, nat, nat)>)
    requires p <= |s|
    ensures Ordered(s, p, r)
    decreases |s| - p
  {
    match NextLink(s, p)
    case None => []
    case Some((q, k, c)) => [(q, k, c)] + Matches(s, c + 1)
  }

  /** The pieces of the split from p around the given matches: plain text
      and links alternate, starting and ending with plain text (possibly
      empty). */
  function PartsOf(s: string, p: nat, spans: seq<(nat, nat, nat)>): seq<Part>
    requires Ordered(s, p, spans)
    decreases |spans|
  {
    if |spans| == 0 then [Plain(s[p..])]
    else PartsStep(s, p, spans[0], PartsOf(s, spans[0].2 + 1, spans[1..]))
  }

  /** The plain text from p up to the match `v`, the match as a link, and
      the given parts after it. */
  function PartsStep(s: string, p: nat, v: (nat, nat, nat), rest: seq<Part>): seq<Part>
    requires p <= v.0 < v.1 && v.1 + 2 <= v.2 < |s|
  {
    [Plain(s[p..v.0]), Link(s[v.0 + 1..v.1], s[v.1 + 2..v.2])] + rest
  }

  lemma OrderedTail(s: string, p: nat, spans: seq<(nat, nat, nat)>)
    requires Ordered(s, p, spans) && |spans| > 0
    ensures Ordered(s, spans[0].2 + 1, spans[1..])
  {
  }

  /** `content.split(...)`, each piece read as a part. */
  function Tokens(content: string): seq<Part> {
    PartsOf(content, 0, Matches(content, 0))
  }

  /** Plain text and links alternate, starting and ending with plain text. */
  predicate Alternates(r: seq<Part>) {
    if |r| < 3 then |r| == 1 && r[0].Plain?
    else r[0].Plain? && r[1].Link? && Alternates(r[2..])
  }

  lemma {:induction false} AlternatesAt(r: seq<Part>)
    requires Alternates(r)
    ensures |r| % 2 == 1
    ensures forall i :: 0 <= i < |r| ==> (r[i].Plain? <==> i % 2 == 0)
    decreases |r|
  {
    if |r| >= 3 {
      AlternatesAt(r[2..]);
      forall i | 2 <= i < |r|
        ensures r[i].Plain? <==> i % 2 == 0
      {
        assert r[i] == r[2..][i - 2];
        assert (i - 2) % 2 == i % 2;
      }
    }
  }

  lemma StepAlternates(s: string, p: nat, v: (nat, nat, nat), rest: seq<Part>)
    requires p <= v.0 < v.1 && v.1 + 2 <= v.2 < |s| && Alternates(rest)
    ensures Alternates(PartsStep(s, p, v, rest))
  {
    assert PartsStep(s, p, v, rest)[2..] == rest;
  }

  lemma {:induction false} PartsAlternate(s: string, p: nat, spans: seq<(nat, nat, nat)>)
    requires Ordered(s, p, spans)
    ensures Alternates(PartsOf(s, p, spans))
    decreases |spans|
  {
    if |spans| > 0 {
      OrderedTail(s, p, spans);
      PartsAlternate(s, spans[0].2 + 1, spans[1..]);
      StepAlternates(s, p, spans[0], PartsOf(s, spans[0].2 + 1, spans[1..]));
    }
  }

  /** Plain text and links alternate in the split. */
  lemma TokensAlternate(content: string)
    ensures Alternates(Tokens(content))
  {
    PartsAlternate(content, 0, Matches(content, 0));
  }

  lemma LinkText(s: string, q: nat, k: nat, c: nat)
    requires Bracketed(s, q, k, c)
    ensures PartText(Link(s[q + 1..k], s[k + 2..c])) == s[q..c + 1]
  {
    var t := PartText(Link(s[q + 1..k], s[k + 2..c]));
    assert |t| == c + 1 - q;
    forall i | 0 <= i < |t|
      ensures t[i] == s[q + i]
    {
      if i == 0 {
      } else if i < k - q {
        assert t[i] == s[q + 1..k][i - 1];
      } else if i == k - q || i == k - q + 1 {
      } else if i < c - q {
        assert t[i] == s[k + 2..c][i - (k - q) - 2];
      }
    }
  }

  lemma ConcatTwo(a: Part, b: Part, rest: seq<Part>)
    ensures Concat([a, b] + rest) == PartText(a) + (PartText(b) + Concat(rest))
  {
    var r := [a, b] + rest;
    assert r[1..] == [b] + rest;
    assert r[1..][1..] == rest;
  }

  lemma SplitThree(s: string, a: nat, b: nat, c: nat)
    requires a <= b <= c <= |s|
    ensures s[a..] == s[a..b] + (s[b..c] + s[c..])
  {
  }

  lemma ConcatOne(t: string)
    ensures Concat([Plain(t)]) == t
  {
    assert [Plain(t)][1..] == [];
  }

  /** The text from p cut at a match: the plain text before it, the
      link's text and the text after it. */
  lemma StepPieces(s: string, p: nat, q: nat, k: nat, c: nat)
    requires p <= q && Bracketed(s, q, k, c)
    ensures Boxed(s[p..]) == Boxed(s[p..q] + (PartText(Link(s[q + 1..k], s[k + 2..c])) + s[c + 1..]))
  {
    LinkText(s, q, k, c);
    SplitThree(s, p, q, c + 1);
  }

  lemma ConcatTwoBoxed(a: Part, b: Part, rest: seq<Part>)
    ensures Boxed(Concat([a, b] + rest)) == Boxed(PartText(a) + (PartText(b) + Concat(rest)))
  {
    ConcatTwo(a, b, rest);
  }

  /** The parts of one step, written out. */
  lemma StepParts(s: string, p: nat, v: (nat, nat, nat), rest: seq<Part>)
    requires p <= v.0 && Bracketed(s, v.0, v.1, v.2)
    ensures PartsStep(s, p, v, rest) == [Plain(s[p..v.0]), Link(s[v.0 + 1..v.1], s[v.1 + 2..v.2])] + rest
  {
  }

  /** The plain text before a match, the link and the parts after it join
      back to the text from p when the parts after it join back to the
      text after the match. */
  lemma StepJoin(s: string, p: nat, v: (nat, nat, nat), rest: seq<Part>)
    requires p <= v.0 && Bracketed(s, v.0, v.1, v.2) && Boxed(Concat(rest)) == Boxed(s[v.2 + 1..])
    ensures Boxed(Concat([Plain(s[p..v.0]), Link(s[v.0 + 1..v.1], s[v.1 + 2..v.2])] + rest)) == Boxed(s[p..])
  {
    StepPieces(s, p, v.0, v.1, v.2);
    ConcatTwoBoxed(Plain(s[p..v.0]), Link(s[v.0 + 1..v.1], s[v.1 + 2..v.2]), rest);
  }

  /** One step joins back to the text from p when the parts after it
      join back to the text after the match. */
  lemma StepConcat(s: string, p: nat, v: (nat, nat, nat), rest: seq<Part>)
    requires p <= v.0 && Bracketed(s, v.0, v.1, v.2) && Boxed(Concat(rest)) == Boxed(s[v.2 + 1..])
    ensures Boxed(Concat(PartsStep(s, p, v, rest))) == Boxed(s[p..])
  {
    StepJoin(s, p, v, rest);
    StepParts(s, p, v, rest);
  }

  /** The parts after the last match join back to the rest of the text. */
  lemma PartsConcatLast(s: string, p: nat, spans: seq<(nat, nat, nat)>)
    requires p <= |s| && |spans| == 0
    ensures Ordered(s, p, spans) && Boxed(Concat(PartsOf(s, p, spans))) == Boxed(s[p..])
  {
    ConcatOne(s[p..]);
  }

  /** The parts from a match on join back to the text when the parts
      after it do. */
  lemma PartsConcatNext(s: string, p: nat, spans: seq<(nat, nat, nat)>)
    requires Ordered(s, p, spans) && |spans| > 0
    requires Ordered(s, spans[0].2 + 1, spans[1..])
    requires Boxed(Concat(PartsOf(s, spans[0].2 + 1, spans[1..]))) == Boxed(s[spans[0].2 + 1..])
    ensures Boxed(Concat(PartsOf(s, p, spans))) == Boxed(s[p..])
  {
    StepConcat(s, p, spans[0], PartsOf(s, spans[0].2 + 1, spans[1..]));
  }

  /** The parts of ordered matches join back to the text they cut. */
  lemma {:induction false} PartsConcat(s: string, p: nat, spans: seq<(nat, nat, nat)>)
    requires Ordered(s, p, spans)
    ensures Boxed(Concat(PartsOf(s, p, spans))) == Boxed(s[p..])
    decreases |spans|
  {
    if |spans| == 0 {
      PartsConcatLast(s, p, spans);
    } else {
      OrderedTail(s, p, spans);
      PartsConcat(s, spans[0].2 + 1, spans[1..]);
      PartsConcatNext(s, p, spans);
    }
  }

  /** Joining the parts gives the content back. */
  lemma TokensConcat(content: string)
    ensures Concat(Tokens(content)) == content
  {
    PartsConcat(content, 0, Matches(content, 0));
  }

  lemma GapHasNoLink(s: string, p: nat, q: nat)
    requires p <= q <= |s|
    requires forall m :: p <= m < q ==> MatchAt(s, m).None?
    ensures NoLinkIn(s[p..q])
  {
    forall m | 0 <= m < q - p
      ensures !HasLinkAt(s[p..q], m)
    {
      NoMatchNoLink(s, p + m);
      if HasLinkAt(s[p..q], m) {
        var k, c :| LinkSpan(s[p..q], m, k, c);
        SpanShift(s, p, q, m, k, c);
      }
    }
  }

  /** The lazy label reads all of `l`: no line terminator and no `](`. */
  predicate LabelWhole(l: string) {
    forall m :: 0 <= m < |l| ==> LabelChar(l, m)
  }

  /** The lazy url reads all of `u`: no line terminator and no `)`. */
  predicate UrlWhole(u: string) {
    forall m :: 0 <= m < |u| ==> UrlChar(u, m)
  }

  /** What `part.match(...)` finds in each part: no link in a plain part,
      and in a link part a match whose label and url are the part's own
      (LinkPartMatch). */
  ghost predicate ShownRight(part: Part) {
    match part
    case Plain(t) => NoLinkIn(t)
    case Link(l, u) => LabelWhole(l) && UrlWhole(u)
  }

  /** The matcher finds nothing in a text exactly when no link starts
      anywhere in it. */
  lemma NoNextNoLink(t: string)
    ensures NextLink(t, 0).None? <==> NoLinkIn(t)
  {
    NextLinkLeftmost(t, 0);
    if NextLink(t, 0).None? {
      GapHasNoLink(t, 0, |t|);
      assert t[0..|t|] == t;
    } else {
      var (q, k, c) := NextLink(t, 0).value;
      assert HasLinkAt(t, q);
    }
  }

  /** A link part is shown right exactly when its text is a match at its
      start with the part's label and url. */
  lemma LinkPartSpan(l: string, u: string)
    ensures ShownRight(Link(l, u)) <==> LinkSpan(PartText(Link(l, u)), 0, |l| + 1, |l| + |u| + 3)
  {
    var t := PartText(Link(l, u));
    assert forall i :: 0 <= i < |l| ==> t[i + 1] == l[i];
    assert forall i :: 0 <= i < |u| ==> t[|l| + 3 + i] == u[i];
    assert t[0] == '[' && t[|l| + 1] == ']' && t[|l| + 2] == '(' && t[|l| + |u| + 3] == ')';
    if LabelWhole(l) && UrlWhole(u) {
      forall m | 0 < m < |l| + 1
        ensures LabelChar(t, m)
      {
        assert LabelChar(l, m - 1);
      }
      forall m | |l| + 2 < m < |l| + |u| + 3
        ensures UrlChar(t, m)
      {
        assert UrlChar(u, m - |l| - 3);
      }
    }
    if LinkSpan(t, 0, |l| + 1, |l| + |u| + 3) {
      forall m | 0 <= m < |l|
        ensures LabelChar(l, m)
      {
        assert LabelChar(t, m + 1);
      }
      forall m | 0 <= m < |u|
        ensures UrlChar(u, m)
      {
        assert UrlChar(t, m + |l| + 3);
      }
    }
  }

  /** `part.match(...)` on a link part finds the part's own label and url
      exactly when the part is shown right. */
  lemma LinkPartMatch(l: string, u: string)
    ensures ShownRight(Link(l, u)) <==> NextLink(PartText(Link(l, u)), 0) == Some((0, |l| + 1, |l| + |u| + 3))
  {
    var t := PartText(Link(l, u));
    LinkPartSpan(l, u);
    NextLinkLeftmost(t, 0);
    if ShownRight(Link(l, u)) {
      SpanIsMatch(t, 0, |l| + 1, |l| + |u| + 3);
    }
  }

  /** Every part of a sequence is shown right. */
  ghost predicate AllShown(r: seq<Part>) {
    |r| == 0 || (ShownRight(r[0]) && AllShown(r[1..]))
  }

  lemma {:induction false} AllShownAt(r: seq<Part>)
    requires AllShown(r)
    ensures forall i :: 0 <= i < |r| ==> ShownRight(r[i])
    decreases |r|
  {
    if |r| > 0 {
      AllShownAt(r[1..]);
      assert forall i :: 1 <= i < |r| ==> r[i] == r[1..][i - 1];
    }
  }

  lemma ShownAssemble(plain: string, link: Part, rest: seq<Part>)
    requires ShownRight(Plain(plain)) && ShownRight(link) && AllShown(rest)
    ensures AllShown([Plain(plain), link] + rest)
  {
    var r := [Plain(plain), link] + rest;
    assert r[1..] == [link] + rest && r[1..][1..] == rest;
  }

  lemma ShownLast(s: string, p: nat)
    requires p <= |s| && NextLink(s, p).None?
    ensures ShownRight(Plain(s[p..]))
  {
    NextLinkLeftmost(s, p);
    GapHasNoLink(s, p, |s|);
    assert s[p..|s|] == s[p..];
  }

  /** The text before a link holds none, and the link is shown right. */
  lemma StepShown(s: string, p: nat)
    requires p <= |s| && NextLink(s, p).Some?
    ensures StepOk(s, p, NextLink(s, p).value)
  {
    var (q, k, c) := NextLink(s, p).value;
    NextLinkLeftmost(s, p);
    GapHasNoLink(s, p, q);
    SpanCut(s, q, k, c);
    LinkText(s, q, k, c);
    LinkPartSpan(s[q + 1..k], s[k + 2..c]);
  }

  /** The text from p to the match `v` holds no link, and the match is
      shown right as a link part. */
  ghost predicate StepOk(s: string, p: nat, v: (nat, nat, nat)) {
    p <= v.0 < v.1 && v.1 + 2 <= v.2 < |s|
    && ShownRight(Plain(s[p..v.0])) && ShownRight(Link(s[v.0 + 1..v.1], s[v.1 + 2..v.2]))
  }

  /** Every match and the text before it are shown right, and so is the
      text after the last match. */
  ghost predicate StepsShown(s: string, p: nat, spans: seq<(nat, nat, nat)>)
    decreases |spans|
  {
    if |spans| == 0 then p <= |s| && ShownRight(Plain(s[p..]))
    else StepOk(s, p, spans[0]) && StepsShown(s, spans[0].2 + 1, spans[1..])
  }

  /** Each span is the leftmost match after the previous one, and none
      is left after the last. */
  predicate Leftmost(s: string, p: nat, spans: seq<(nat, nat, nat)>)
    decreases |spans|
  {
    p <= |s| &&
    if |spans| == 0 then NextLink(s, p).None?
    else NextLink(s, p) == Some(spans[0]) && Leftmost(s, spans[0].2 + 1, spans[1..])
  }

  /** One step of Matches: the leftmost match, then the matches after it. */
  lemma MatchesStep(s: string, p: nat)
    requires p <= |s| && NextLink(s, p).Some?
    ensures NextLink(s, p).value.2 + 1 <= |s|
    ensures Matches(s, p) == [NextLink(s, p).value] + Matches(s, NextLink(s, p).value.2 + 1)
  {
  }

  lemma LeftmostCons(s: string, p: nat, v: (nat, nat, nat), rest: seq<(nat, nat, nat)>, spans: seq<(nat, nat, nat)>)
    requires p <= |s| && NextLink(s, p) == Some(v) && Leftmost(s, v.2 + 1, rest) && spans == [v] + rest
    ensures Leftmost(s, p, spans)
  {
    assert spans[0] == v && spans[1..] == rest;
  }

  lemma MatchesLeftmostLast(s: string, p: nat)
    requires p <= |s| && NextLink(s, p).None?
    ensures Leftmost(s, p, Matches(s, p))
  {
  }

  lemma MatchesLeftmostNext(s: string, p: nat)
    requires p <= |s| && NextLink(s, p).Some?
    requires NextLink(s, p).value.2 + 1 <= |s|
    requires Leftmost(s, NextLink(s, p).value.2 + 1, Matches(s, NextLink(s, p).value.2 + 1))
    ensures Leftmost(s, p, Matches(s, p))
  {
    var v := NextLink(s, p).value;
    MatchesStep(s, p);
    LeftmostCons(s, p, v, Matches(s, v.2 + 1), Matches(s, p));
  }

  /** Matches takes the leftmost match each time. */
  lemma {:induction false} MatchesLeftmost(s: string, p: nat)
    requires p <= |s|
    ensures Leftmost(s, p, Matches(s, p))
    decreases |s| - p
  {
    if NextLink(s, p).None? {
      MatchesLeftmostLast(s, p);
    } else {
      MatchesLeftmost(s, NextLink(s, p).value.2 + 1);
      MatchesLeftmostNext(s, p);
    }
  }

  lemma {:induction false} LeftmostShown(s: string, p: nat, spans: seq<(nat, nat, nat)>)
    requires Leftmost(s, p, spans)
    ensures StepsShown(s, p, spans)
    decreases |spans|
  {
    if |spans| == 0 {
      ShownLast(s, p);
    } else {
      StepShown(s, p);
      LeftmostShown(s, spans[0].2 + 1, spans[1..]);
    }
  }

  lemma MatchesShown(s: string, p: nat)
    requires p <= |s|
    ensures StepsShown(s, p, Matches(s, p))
  {
    MatchesLeftmost(s, p);
    LeftmostShown(s, p, Matches(s, p));
  }

  /** One step of StepsShown, to its parts. */
  lemma StepsShownHead(s: string, p: nat, spans: seq<(nat, nat, nat)>)
    requires |spans| > 0 && StepsShown(s, p, spans)
    ensures StepOk(s, p, spans[0]) && StepsShown(s, spans[0].2 + 1, spans[1..])
  {
  }

  /** One step is shown right when the parts after it are. */
  lemma StepAllShown(s: string, p: nat, v: (nat, nat, nat), rest: seq<Part>)
    requires StepOk(s, p, v) && AllShown(rest)
    ensures AllShown(PartsStep(s, p, v, rest))
  {
    ShownAssemble(s[p..v.0], Link(s[v.0 + 1..v.1], s[v.1 + 2..v.2]), rest);
  }

  /** The parts after the last match are shown right. */
  lemma PartsShownLast(s: string, p: nat, spans: seq<(nat, nat, nat)>)
    requires |spans| == 0 && StepsShown(s, p, spans)
    ensures Ordered(s, p, spans) && AllShown(PartsOf(s, p, spans))
  {
    assert [Plain(s[p..])][1..] == [];
  }

  /** The parts from a match on are shown right when the parts after it
      are. */
  lemma PartsShownNext(s: string, p: nat, spans: seq<(nat, nat, nat)>)
    requires Ordered(s, p, spans) && |spans| > 0 && StepOk(s, p, spans[0])
    requires Ordered(s, spans[0].2 + 1, spans[1..]) && AllShown(PartsOf(s, spans[0].2 + 1, spans[1..]))
    ensures AllShown(PartsOf(s, p, spans))
  {
    StepAllShown(s, p, spans[0], PartsOf(s, spans[0].2 + 1, spans[1..]));
  }

  lemma {:induction false} PartsShown(s: string, p: nat, spans: seq<(nat, nat, nat)>)
    requires Ordered(s, p, spans) && StepsShown(s, p, spans)
    ensures AllShown(PartsOf(s, p, spans))
    decreases |spans|
  {
    if |spans| == 0 {
      PartsShownLast(s, p, spans);
    } else {
      StepsShownHead(s, p, spans);
      OrderedTail(s, p, spans);
      PartsShown(s, spans[0].2 + 1, spans[1..]);
      PartsShownNext(s, p, spans);
    }
  }

  /** Every part of the split is shown right. */
  lemma TokensShown(content: string)
    ensures forall i :: 0 <= i < |Tokens(content)| ==> ShownRight(Tokens(content)[i])
  {
    MatchesShown(content, 0);
    PartsShown(content, 0, Matches(content, 0));
    AllShownAt(Tokens(content));
  }

  /** The anchor's attributes: a new tab and `noopener noreferrer` for
      urls starting with "http", neither otherwise. */
  datatype Anchor = Anchor(href: string, target: Option<string>, rel: Option<string>, caption: string)

  function AnchorOf(linkText: string, url: string): (a: Anchor)
    ensures a.href == url && a.caption == linkText
    ensures a.target.Some? <==> StartsWith(url, "http")
    ensures a.rel.Some? <==> a.target.Some?
  {
    var external := StartsWith(url, "http");
    Anchor(url, if external then Some("_blank") else None,
           if external then Some("noopener noreferrer") else None, linkText)
  }
}
