/** The string operations the assistant applies to free text and to the
    records it renders: `toLowerCase`, `includes`, `split(/\s+/)`,
    `replace(/[?.,!]/g, '')`, `trim`, `join`, `split('\n')` and the decimal
    rendering of a count inside a template literal. */
module Text {
  import opened Seqs

  /** `toLowerCase` on one character, for the ASCII letters. */
  function LowerChar(c: char): char {
    if 'A' <= c <= 'Z' then (c as int - 'A' as int + 'a' as int) as char else c
  }

  function Lower(s: string): (r: string)
    ensures |r| == |s| && forall i :: 0 <= i < |s| ==> r[i] == LowerChar(s[i])
  {
    seq(|s|, i requires 0 <= i < |s| => LowerChar(s[i]))
  }

  /** Lower-casing introduces no character other than a lower-case letter. */
  lemma LowerKeepsOut(s: string, c: char)
    requires c !in s && !('a' <= c <= 'z')
    ensures c !in Lower(s)
  {
    var l := Lower(s);
    forall i | 0 <= i < |l|
      ensures l[i] != c
    {
      assert s[i] in s;
    }
  }

  // ---------------------------------------------------------------------
  // Substring search (`String.prototype.includes`)
  // ---------------------------------------------------------------------

  /** The characters of `p` from position `k` on occur in `s` from `i + k` on. */
  predicate MatchesAt(s: string, p: string, i: nat, k: nat)
    requires i + |p| <= |s| && k <= |p|
    decreases |p| - k
  {
    k == |p| || (s[i + k] == p[k] && MatchesAt(s, p, i, k + 1))
  }

  /** Some occurrence of `p` in `s` starts at position `i` or later. */
  predicate ContainsFrom(s: string, p: string, i: nat)
    decreases |s| - i
  {
    i + |p| <= |s| && (MatchesAt(s, p, i, 0) || ContainsFrom(s, p, i + 1))
  }

  /** `s.includes(p)`: the scan tries every start position from the left. */
  predicate Contains(s: string, p: string) {
    ContainsFrom(s, p, 0)
  }

  /** An occurrence of `p` in `s` starts at position `i`. */
  predicate OccursAt(s: string, p: string, i: int) {
    0 <= i <= |s| - |p| && s[i..i + |p|] == p
  }

  /** The declarative meaning of `includes`: some slice of `s` equals `p`. */
  ghost predicate Occurs(s: string, p: string) {
    exists i :: OccursAt(s, p, i)
  }

  lemma {:induction false} MatchesAtChars(s: string, p: string, i: nat, k: nat)
    requires i + |p| <= |s| && k <= |p|
    ensures MatchesAt(s, p, i, k) <==> forall j :: k <= j < |p| ==> s[i + j] == p[j]
    decreases |p| - k
  {
    if k < |p| {
      MatchesAtChars(s, p, i, k + 1);
    }
  }

  lemma MatchesAtSlice(s: string, p: string, i: nat)
    requires i + |p| <= |s|
    ensures MatchesAt(s, p, i, 0) <==> OccursAt(s, p, i)
  {
    MatchesAtChars(s, p, i, 0);
    var w := s[i..i + |p|];
    assert forall j :: 0 <= j < |p| ==> s[i + j] == w[j];
  }

  lemma {:induction false} ContainsFromIff(s: string, p: string, i: nat)
    ensures ContainsFrom(s, p, i) <==> exists j :: i <= j && OccursAt(s, p, j)
    decreases |s| - i
  {
    if i + |p| <= |s| {
      MatchesAtSlice(s, p, i);
      ContainsFromIff(s, p, i + 1);
      if exists j :: i <= j && OccursAt(s, p, j) {
        var j :| i <= j && OccursAt(s, p, j);
        if j > i {
          assert i + 1 <= j && OccursAt(s, p, j);
        }
      }
    }
  }

  /** The scan agrees with the declarative meaning, in both directions. */
  lemma ContainsIff(s: string, p: string)
    ensures Contains(s, p) <==> Occurs(s, p)
  {
    ContainsFromIff(s, p, 0);
  }

  lemma ContainsAt(s: string, p: string, i: nat)
    requires i + |p| <= |s| && s[i..i + |p|] == p
    ensures Contains(s, p)
  {
    ContainsIff(s, p);
    assert OccursAt(s, p, i);
  }

  /** A string contains each of its middle parts. */
  lemma ContainsPart(a: string, p: string, b: string)
    ensures Contains(a + p + b, p)
  {
    assert (a + p + b)[|a|..|a| + |p|] == p;
    ContainsAt(a + p + b, p, |a|);
  }

  /** Containment survives extending the text on either side. */
  lemma ContainsWithin(x: string, p: string, a: string, b: string)
    requires Contains(x, p)
    ensures Contains(a + x + b, p)
  {
    ContainsIff(x, p);
    var i :| OccursAt(x, p, i);
    assert (a + x + b)[|a| + i..|a| + i + |p|] == x[i..i + |p|];
    ContainsAt(a + x + b, p, |a| + i);
  }
  /** An occurrence of an occurrence is an occurrence. */
  lemma ContainsTrans(s: string, p: string, q: string)
    requires Contains(s, p) && Contains(p, q)
    ensures Contains(s, q)
  {
    ContainsIff(s, p);
    ContainsIff(p, q);
    var i :| OccursAt(s, p, i);
    var j :| OccursAt(p, q, j);
    assert s[i + j..i + j + |q|] == q by {
      assert forall k :: 0 <= k < |q| ==> s[i + j + k] == p[j + k] == q[k];
    }
    ContainsAt(s, q, i + j);
  }

  /** Lower-casing both sides keeps an occurrence. */
  lemma LowerContains(s: string, p: string)
    requires Contains(s, p)
    ensures Contains(Lower(s), Lower(p))
  {
    ContainsIff(s, p);
    var i :| OccursAt(s, p, i);
    assert Lower(s)[i..i + |p|] == Lower(p) by {
      assert forall k :: 0 <= k < |p| ==> s[i + k] == p[k];
    }
    ContainsAt(Lower(s), Lower(p), i);
  }


  /** If two neighbouring characters of `p` never occur side by side in `s`,
      then `s` does not contain `p`. */
  lemma {:induction false} NoPairFrom(s: string, p: string, k: nat, i: nat)
    requires k + 1 < |p|
    requires forall j :: i <= j < |s| - 1 ==> !(s[j] == p[k] && s[j + 1] == p[k + 1])
    ensures !ContainsFrom(s, p, i)
    decreases |s| - i
  {
    if i + |p| <= |s| {
      MatchesAtChars(s, p, i, 0);
      assert s[i + k] != p[k] || s[i + k + 1] != p[k + 1];
      NoPairFrom(s, p, k, i + 1);
    }
  }

  lemma NoPair(s: string, p: string, k: nat)
    requires k + 1 < |p|
    requires forall j :: 0 <= j < |s| - 1 ==> !(s[j] == p[k] && s[j + 1] == p[k + 1])
    ensures !Contains(s, p)
  {
    NoPairFrom(s, p, k, 0);
  }

  /** If some character of `p` does not occur in `s`, then `s` does not
      contain `p`. */
  lemma NoChar(s: string, p: string, k: nat)
    requires k < |p| && p[k] !in s
    ensures !Contains(s, p)
  {
    ContainsIff(s, p);
  }

  // ---------------------------------------------------------------------
  // Whitespace, punctuation, splitting, trimming, joining
  // ---------------------------------------------------------------------

  /** The code points ECMAScript counts as WhiteSpace or LineTerminator:
      what the regular expression `\s` and `String.prototype.trim` match. */
  predicate IsSpace(c: char) {
    || c == ' ' || c == '\t' || c == '\n' || c == '\r'
    || c == '\U{000B}' || c == '\U{000C}' || c == '\U{00A0}' || c == '\U{1680}'
    || ('\U{2000}' <= c <= '\U{200A}')
    || c == '\U{2028}' || c == '\U{2029}' || c == '\U{202F}' || c == '\U{205F}'
    || c == '\U{3000}' || c == '\U{FEFF}'
  }

  predicate NoSpace(s: string) {
    forall i :: 0 <= i < |s| ==> !IsSpace(s[i])
  }

  /** Length of the longest prefix of `s` made of whitespace. */
  function SpaceRun(s: string): (n: nat)
    ensures n <= |s|
    ensures forall i :: 0 <= i < n ==> IsSpace(s[i])
    ensures n < |s| ==> !IsSpace(s[n])
  {
    if s != [] && IsSpace(s[0]) then 1 + SpaceRun(s[1..]) else 0
  }

  /** Length of the longest suffix of `s` made of whitespace. */
  function TrailingSpaceRun(s: string): (n: nat)
    ensures n <= |s|
    ensures forall i :: |s| - n <= i < |s| ==> IsSpace(s[i])
    ensures n < |s| ==> !IsSpace(s[|s| - 1 - n])
  {
    if s != [] && IsSpace(s[|s| - 1]) then 1 + TrailingSpaceRun(s[..|s| - 1]) else 0
  }

  /** Length of the longest prefix of `s` free of whitespace. */
  function WordRun(s: string): (n: nat)
    ensures n <= |s|
    ensures NoSpace(s[..n])
    ensures n < |s| ==> IsSpace(s[n])
  {
    if s != [] && !IsSpace(s[0]) then
      var n := 1 + WordRun(s[1..]);
      assert s[..n] == [s[0]] + s[1..][..n - 1];
      n
    else 0
  }

  /** `s.split(/\s+/)`: the pieces between maximal runs of whitespace. A run
      at the start or at the end yields an empty first or last piece; every
      piece in between is non-empty. */
  function Split(s: string): (r: seq<string>)
    ensures |r| >= 1
    ensures forall k :: 0 <= k < |r| ==> NoSpace(r[k])
    ensures s != [] && !IsSpace(s[0]) ==> r[0] != []
    ensures forall k :: 0 < k < |r| - 1 ==> r[k] != []
    decreases |s|
  {
    var n := WordRun(s);
    if n == |s| then
      assert s[..n] == s;
      [s]
    else
      var rest := s[n..];
      var tail := Split(rest[SpaceRun(rest)..]);
      [s[..n]] + tail
  }

  /** `ws.join(sep)`. */
  function Join(ws: seq<string>, sep: string): string {
    if |ws| == 0 then []
    else if |ws| == 1 then ws[0]
    else ws[0] + sep + Join(ws[1..], sep)
  }

  lemma JoinCons(w: string, ws: seq<string>, sep: string)
    requires |ws| >= 1
    ensures Join([w] + ws, sep) == w + sep + Join(ws, sep)
  {
    assert ([w] + ws)[1..] == ws;
  }

  /** Every piece occurs in the join. */
  lemma {:induction false} JoinContains(ws: seq<string>, sep: string, k: nat)
    requires k < |ws|
    ensures Contains(Join(ws, sep), ws[k])
  {
    if |ws| == 1 {
      assert [] + ws[0] + [] == Join(ws, sep);
      ContainsPart([], ws[0], []);
    } else if k == 0 {
      assert [] + ws[0] + (sep + Join(ws[1..], sep)) == Join(ws, sep);
      ContainsPart([], ws[0], sep + Join(ws[1..], sep));
    } else {
      JoinContains(ws[1..], sep, k - 1);
      assert ws[0] + sep + Join(ws[1..], sep) + [] == Join(ws, sep);
      ContainsWithin(Join(ws[1..], sep), ws[k], ws[0] + sep, []);
    }
  }

  /** A join ends with the last character of its last piece. */
  lemma {:induction false} JoinEndsWith(ws: seq<string>, sep: string)
    requires |ws| >= 1 && ws[|ws| - 1] != []
    ensures Join(ws, sep) != [] && Join(ws, sep)[|Join(ws, sep)| - 1] == ws[|ws| - 1][|ws[|ws| - 1]| - 1]
  {
    if |ws| > 1 {
      JoinEndsWith(ws[1..], sep);
      assert ws[1..][|ws| - 2] == ws[|ws| - 1];
    }
  }

  lemma JoinStartsWith(ws: seq<string>, sep: string)
    requires |ws| >= 1
    ensures |ws[0]| <= |Join(ws, sep)| && Join(ws, sep)[..|ws[0]|] == ws[0]
  {
    if |ws| > 1 {
      assert Join(ws, sep) == ws[0] + (sep + Join(ws[1..], sep));
    }
  }

  /** Splitting on whitespace undoes joining non-empty words with single
      spaces. */
  lemma {:induction false} SplitJoin(ws: seq<string>)
    requires |ws| >= 1
    requires forall k :: 0 <= k < |ws| ==> ws[k] != [] && NoSpace(ws[k])
    ensures Split(Join(ws, " ")) == ws
  {
    var w := ws[0];
    if |ws| == 1 {
      assert WordRun(w) == |w|;
    } else {
      var j := Join(ws[1..], " ");
      var s := Join(ws, " ");
      assert s == w + " " + j;
      JoinStartsWith(ws[1..], " ");
      assert j[0] == ws[1][0];
      var n := WordRun(s);
      assert s[..|w|] == w;
      assert IsSpace(s[|w|]);
      assert n <= |w|;
      assert n == |w|;
      var rest := s[n..];
      assert rest == " " + j;
      assert SpaceRun(rest) == 1 by {
        assert rest[1] == j[0];
      }
      assert rest[1..] == j;
      SplitJoin(ws[1..]);
      assert Split(s) == [w] + Split(j);
    }
  }

  /** A separator as `\s+` matches it: a non-empty run of whitespace. */
  predicate Gap(g: string) {
    g != [] && AllSpace(g)
  }

  /** The pieces `ws` with `gaps[k]` placed between `ws[k]` and `ws[k + 1]`. */
  function Weave(ws: seq<string>, gaps: seq<string>): string
    requires |ws| >= 1 && |gaps| == |ws| - 1
    decreases |ws|
  {
    if |ws| == 1 then ws[0] else ws[0] + gaps[0] + Weave(ws[1..], gaps[1..])
  }

  /** What a split may return: pieces free of whitespace, each non-empty
      except possibly the first and the last. */
  predicate SplitShape(ws: seq<string>) {
    && |ws| >= 1
    && (forall k :: 0 <= k < |ws| ==> NoSpace(ws[k]))
    && (forall k :: 0 < k < |ws| - 1 ==> ws[k] != [])
  }

  lemma {:induction false} WordRunOf(w: string, t: string)
    requires NoSpace(w) && (t == [] || IsSpace(t[0]))
    ensures WordRun(w + t) == |w|
  {
    if w == [] {
      assert w + t == t;
    } else {
      assert (w + t)[1..] == w[1..] + t;
      WordRunOf(w[1..], t);
    }
  }

  lemma {:induction false} SpaceRunOf(g: string, t: string)
    requires AllSpace(g) && (t == [] || !IsSpace(t[0]))
    ensures SpaceRun(g + t) == |g|
  {
    if g == [] {
      assert g + t == t;
    } else {
      assert (g + t)[1..] == g[1..] + t;
      SpaceRunOf(g[1..], t);
    }
  }

  lemma {:induction false} TrailingSpaceRunOf(t: string, g: string)
    requires AllSpace(g) && (t == [] || !IsSpace(t[|t| - 1]))
    ensures TrailingSpaceRun(t + g) == |g|
  {
    if g == [] {
      assert t + g == t;
    } else {
      assert (t + g)[..|t + g| - 1] == t + g[..|g| - 1];
      TrailingSpaceRunOf(t, g[..|g| - 1]);
    }
  }

  /** A weave begins with its first piece and ends with its last. */
  lemma {:induction false} WeaveEnds(ws: seq<string>, gaps: seq<string>)
    requires |ws| >= 1 && |gaps| == |ws| - 1
    ensures var s, w := Weave(ws, gaps), ws[|ws| - 1];
      && |ws[0]| <= |s| && s[..|ws[0]|] == ws[0]
      && |w| <= |s| && s[|s| - |w|..] == w
  {
    if |ws| > 1 {
      WeaveEnds(ws[1..], gaps[1..]);
      assert Weave(ws, gaps) == ws[0] + (gaps[0] + Weave(ws[1..], gaps[1..]));
    }
  }

  /** A weave whose first piece is free of whitespace, and non-empty when a
      gap follows it, does not begin with whitespace. */
  lemma WeaveStart(ws: seq<string>, gaps: seq<string>)
    requires |ws| >= 1 && |gaps| == |ws| - 1
    requires NoSpace(ws[0]) && (|ws| == 1 || ws[0] != [])
    ensures var s := Weave(ws, gaps); s == [] || !IsSpace(s[0])
  {
    WeaveEnds(ws, gaps);
  }

  /** A piece free of whitespace, then a run of whitespace, then a string
      that does not begin with whitespace: the split takes off the piece. */
  lemma SplitAt(w: string, g: string, t: string)
    requires NoSpace(w) && Gap(g) && (t == [] || !IsSpace(t[0]))
    ensures Split(w + g + t) == [w] + Split(t)
  {
    var s := w + g + t;
    assert s == w + (g + t);
    WordRunOf(w, g + t);
    SpaceRunOf(g, t);
    SplitThree(w, g, t);
  }

  /** The unfolding of `Split` on a piece, a gap and a rest whose lengths
      are the runs it measures. */
  lemma SplitThree(w: string, g: string, t: string)
    requires WordRun(w + (g + t)) == |w| < |w + (g + t)|
    requires SpaceRun(g + t) == |g|
    ensures Split(w + g + t) == [w] + Split(t)
  {
    var s := w + (g + t);
    assert s == w + g + t;
    assert s[..|w|] == w && s[|w|..] == g + t && (g + t)[|g|..] == t;
    SplitUnfold(s);
  }

  /** Splitting recovers the pieces of any weave of them with whitespace
      runs: the split of a string is the only such decomposition of it. */
  lemma {:induction false} SplitWeave(ws: seq<string>, gaps: seq<string>)
    requires SplitShape(ws) && |gaps| == |ws| - 1
    requires forall k :: 0 <= k < |gaps| ==> Gap(gaps[k])
    ensures Split(Weave(ws, gaps)) == ws
  {
    if |ws| == 1 {
      WordRunOf(ws[0], []);
      assert ws[0] + [] == ws[0];
      SplitWhole(ws[0]);
    } else {
      var ws', gaps' := ws[1..], gaps[1..];
      ShapeTail(ws);
      GapsTail(gaps);
      WeaveStart(ws', gaps');
      WeaveUnfold(ws, gaps);
      SplitAt(ws[0], gaps[0], Weave(ws', gaps'));
      SplitWeave(ws', gaps');
      ConsTail(ws);
    }
  }

  lemma WeaveUnfold(ws: seq<string>, gaps: seq<string>)
    requires |ws| >= 2 && |gaps| == |ws| - 1
    ensures Weave(ws, gaps) == ws[0] + gaps[0] + Weave(ws[1..], gaps[1..])
  {
  }

  lemma ConsTail<T>(s: seq<T>)
    requires s != []
    ensures s == [s[0]] + s[1..]
  {
  }

  /** The pieces after the first of a split shape have that shape too; the
      first of them is non-empty unless it is also the last. */
  lemma ShapeTail(ws: seq<string>)
    requires SplitShape(ws) && |ws| >= 2
    ensures SplitShape(ws[1..]) && NoSpace(ws[0]) && NoSpace(ws[1]) && (|ws| == 2 || ws[1] != [])
  {
    assert forall k :: 0 <= k < |ws| - 1 ==> ws[1..][k] == ws[k + 1];
  }

  lemma GapsTail(gaps: seq<string>)
    requires gaps != [] && forall k :: 0 <= k < |gaps| ==> Gap(gaps[k])
    ensures Gap(gaps[0]) && forall k :: 0 <= k < |gaps| - 1 ==> Gap(gaps[1..][k])
  {
  }

  /** A string without whitespace splits into itself. */
  lemma SplitWhole(s: string)
    requires WordRun(s) == |s|
    ensures Split(s) == [s]
  {
    assert s[..WordRun(s)] == s;
  }

  /** One step of `Split`: the leading piece, then the split of what
      follows the whitespace after it. */
  lemma SplitUnfold(s: string)
    requires WordRun(s) < |s|
    ensures var rest := s[WordRun(s)..];
      Split(s) == [s[..WordRun(s)]] + Split(rest[SpaceRun(rest)..])
  {
  }

  /** Every string is the weave of its split with the whitespace runs that
      separate the pieces. */
  lemma {:induction false} SplitGaps(s: string) returns (gaps: seq<string>)
    ensures |gaps| == |Split(s)| - 1
    ensures forall k :: 0 <= k < |gaps| ==> Gap(gaps[k])
    ensures Weave(Split(s), gaps) == s
    decreases |s|
  {
    if WordRun(s) == |s| {
      gaps := [];
      SplitWhole(s);
    } else {
      var w, g, t := SplitHead(s);
      var tailGaps := SplitGaps(t);
      gaps := GapsStep(s, w, g, t, tailGaps);
    }
  }

  /** A string with whitespace after its first piece is that piece, a gap,
      and a shorter string whose split is the rest of its split. */
  lemma SplitHead(s: string) returns (w: string, g: string, t: string)
    requires WordRun(s) < |s|
    ensures s == w + g + t && Gap(g) && |t| < |s|
    ensures Split(s) == [w] + Split(t)
  {
    var n := WordRun(s);
    var rest := s[n..];
    var m := SpaceRun(rest);
    w, g, t := s[..n], rest[..m], rest[m..];
    SplitUnfold(s);
    LeadingGap(rest);
    Rejoin(s, n, m);
  }

  lemma Rejoin(s: string, n: nat, m: nat)
    requires n + m <= |s|
    ensures s == s[..n] + s[n..][..m] + s[n..][m..]
  {
    assert s[n..] == s[n..][..m] + s[n..][m..];
  }

  /** A string that begins with whitespace begins with a gap. */
  lemma LeadingGap(s: string)
    requires s != [] && IsSpace(s[0])
    ensures Gap(s[..SpaceRun(s)])
  {
  }

  /** One step of `SplitGaps`: a piece and a gap put before a string already
      woven from its split. */
  lemma GapsStep(s: string, w: string, g: string, t: string, tailGaps: seq<string>) returns (gaps: seq<string>)
    requires s == w + g + t && Gap(g) && Split(s) == [w] + Split(t)
    requires |tailGaps| == |Split(t)| - 1 && Weave(Split(t), tailGaps) == t
    requires forall k :: 0 <= k < |tailGaps| ==> Gap(tailGaps[k])
    ensures |gaps| == |Split(s)| - 1
    ensures forall k :: 0 <= k < |gaps| ==> Gap(gaps[k])
    ensures Weave(Split(s), gaps) == s
  {
    gaps := [g] + tailGaps;
    GapsCons(g, tailGaps);
    WeaveCons(w, g, Split(t), tailGaps);
  }



  predicate IsPunct(c: char) {
    c == '?' || c == '.' || c == ',' || c == '!'
  }

  predicate NoPunct(s: string) {
    forall i :: 0 <= i < |s| ==> !IsPunct(s[i])
  }

  predicate NotPunct(c: char) { !IsPunct(c) }

  /** `s.replace(/[?.,!]/g, '')`: every `?`, `.`, `,` and `!` removed. */
  function StripPunct(s: string): (r: string)
    ensures NoPunct(r)
  {
    Filter(NotPunct, s)
  }

  /** Stripping leaves a string without punctuation as it is. */
  lemma StripPunctClean(s: string)
    requires NoPunct(s)
    ensures StripPunct(s) == s
  {
    FilterAll(NotPunct, s);
  }

  /** Joining punctuation-free pieces with a punctuation-free separator
      yields a punctuation-free string. */
  lemma {:induction false} JoinNoPunct(ws: seq<string>, sep: string)
    requires NoPunct(sep) && forall k :: 0 <= k < |ws| ==> NoPunct(ws[k])
    ensures NoPunct(Join(ws, sep))
  {
    if |ws| > 1 {
      JoinNoPunct(ws[1..], sep);
      var a, b := ws[0] + sep, Join(ws[1..], sep);
      assert forall i :: 0 <= i < |a + b| ==> (a + b)[i] == if i < |a| then a[i] else b[i - |a|];
    }
  }

  /** A string that is all whitespace, as `trim` reduces to "". */
  predicate AllSpace(s: string) {
    forall i :: 0 <= i < |s| ==> IsSpace(s[i])
  }

  predicate Trimmed(s: string) {
    s == [] || (!IsSpace(s[0]) && !IsSpace(s[|s| - 1]))
  }

  /** `r` is `s` with the whitespace before position `i` and after `r`
      taken off. */
  predicate TrimmedAt(s: string, r: string, i: int) {
    0 <= i <= |s| - |r| && r == s[i..i + |r|] && AllSpace(s[..i]) && AllSpace(s[i + |r|..])
  }

  /** `String.prototype.trim`: the part of `s` between its leading and its
      trailing whitespace. */
  function Trim(s: string): (r: string)
    ensures Trimmed(r)
    ensures r == [] <==> AllSpace(s)
    ensures exists i :: TrimmedAt(s, r, i)
  {
    var a := SpaceRun(s);
    if a == |s| then
      assert TrimmedAt(s, [], 0);
      []
    else
      var b := TrailingSpaceRun(s);
      assert !IsSpace(s[a]);
      assert a < |s| - b;
      var r := s[a..|s| - b];
      assert r[0] == s[a] && r[|r| - 1] == s[|s| - 1 - b];
      assert TrimmedAt(s, r, a);
      r
  }

  /** Trimming removes only whitespace, so it keeps a string free of
      punctuation. */
  lemma TrimKeepsNoPunct(s: string)
    requires NoPunct(s)
    ensures NoPunct(Trim(s))
  {
    var r := Trim(s);
    var i :| TrimmedAt(s, r, i);
    forall k | 0 <= k < |r|
      ensures !IsPunct(r[k])
    {
      assert r[k] == s[i + k];
    }
  }

  lemma TrimTrimmed(s: string)
    requires Trimmed(s)
    ensures Trim(s) == s
  {
  }

  /** A string with whitespace around a part that neither begins nor ends
      with whitespace trims to that part. */
  lemma TrimPadded(lead: string, m: string, trail: string)
    requires AllSpace(lead) && AllSpace(trail)
    requires m != [] && !IsSpace(m[0]) && !IsSpace(m[|m| - 1])
    ensures Trim(lead + m + trail) == m
  {
    var s := lead + m + trail;
    assert s == lead + (m + trail) && s == (lead + m) + trail;
    SpaceRunOf(lead, m + trail);
    TrailingSpaceRunOf(lead + m, trail);
    assert s[|lead|..|s| - |trail|] == m;
  }

  /** `ws.map(w => w.replace(/[?.,!]/g, ''))`. */
  function StripEach(ws: seq<string>): (r: seq<string>)
    ensures |r| == |ws|
    ensures forall k :: 0 <= k < |ws| ==> r[k] == StripPunct(ws[k])
  {
    seq(|ws|, k requires 0 <= k < |ws| => StripPunct(ws[k]))
  }

  predicate NonEmpty(s: string) { s != [] }

  /** Stripping removes characters only, so it keeps a string free of
      whitespace. */
  lemma StripPunctNoSpace(s: string)
    requires NoSpace(s)
    ensures NoSpace(StripPunct(s))
  {
    FilterMembers(NotPunct, s);
  }

  /** Stripping a join strips each piece, when the separator has nothing to
      strip. */
  lemma {:induction false} StripPunctJoin(ws: seq<string>, sep: string)
    requires NoPunct(sep)
    ensures StripPunct(Join(ws, sep)) == Join(StripEach(ws), sep)
  {
    if |ws| > 1 {
      FilterAppend(NotPunct, ws[0] + sep, Join(ws[1..], sep));
      FilterAppend(NotPunct, ws[0], sep);
      StripPunctClean(sep);
      StripPunctJoin(ws[1..], sep);
      assert StripEach(ws)[1..] == StripEach(ws[1..]);
    }
  }

  /** Joining pieces that are all empty with spaces yields only whitespace. */
  lemma {:induction false} JoinBlank(us: seq<string>)
    requires forall k :: 0 <= k < |us| ==> us[k] == []
    ensures AllSpace(Join(us, " "))
  {
    if |us| > 1 {
      JoinBlank(us[1..]);
      assert Join(us, " ") == " " + Join(us[1..], " ");
    }
  }

  lemma WeaveCons(w: string, g: string, ws: seq<string>, gaps: seq<string>)
    requires |ws| >= 1 && |gaps| == |ws| - 1
    ensures Weave([w] + ws, [g] + gaps) == w + g + Weave(ws, gaps)
  {
    assert ([w] + ws)[1..] == ws && ([g] + gaps)[1..] == gaps;
  }

  /** One step of `JoinSpread`: a piece and a space put before a join that
      is `m` between two runs of whitespace. */
  lemma SpreadStep(w: string, j: string, lead: string, m: string, trail: string)
    requires j == lead + m + trail
    ensures w == [] ==> w + " " + j == (" " + lead) + m + trail
    ensures w + " " + j == [] + (w + (" " + lead) + m) + trail
  {
  }

  /** A space before a run of whitespace makes a gap. */
  lemma SpaceBefore(g: string)
    requires AllSpace(g)
    ensures Gap(" " + g)
  {
  }

  lemma GapsCons(g: string, gaps: seq<string>)
    requires Gap(g) && forall k :: 0 <= k < |gaps| ==> Gap(gaps[k])
    ensures forall k :: 0 <= k < |[g] + gaps| ==> Gap(([g] + gaps)[k])
  {
  }

  /** The non-empty pieces of a sequence: those of its tail, after its head
      when that is non-empty. */
  lemma KeptHead(us: seq<string>)
    requires us != []
    ensures Filter(NonEmpty, us) == (if us[0] != [] then [us[0]] else []) + Filter(NonEmpty, us[1..])
  {
  }

  /** A sequence has no non-empty piece exactly when all its pieces are
      empty. */
  lemma AllEmpty(us: seq<string>)
    ensures Filter(NonEmpty, us) == [] <==> forall k :: 0 <= k < |us| ==> us[k] == []
  {
    FilterMembers(NonEmpty, us);
    if forall k :: 0 <= k < |us| ==> us[k] == [] {
      FilterNone(NonEmpty, us);
    }
  }

  /** Joining pieces with spaces, some of them empty, yields the non-empty
      ones woven with runs of spaces, between two runs of spaces. */
  lemma {:induction false} JoinSpread(us: seq<string>) returns (lead: string, gaps: seq<string>, trail: string)
    requires Filter(NonEmpty, us) != []
    ensures AllSpace(lead) && AllSpace(trail)
    ensures |gaps| == |Filter(NonEmpty, us)| - 1
    ensures forall k :: 0 <= k < |gaps| ==> Gap(gaps[k])
    ensures Join(us, " ") == lead + Weave(Filter(NonEmpty, us), gaps) + trail
  {
    var c, c' := Filter(NonEmpty, us), Filter(NonEmpty, us[1..]);
    KeptHead(us);
    if |us| == 1 {
      lead, gaps, trail := [], [], [];
      assert c == [us[0]];
      assert Join(us, " ") == [] + us[0] + [];
    } else if c' == [] {
      AllEmpty(us[1..]);
      JoinBlank(us[1..]);
      lead, gaps, trail := [], [], " " + Join(us[1..], " ");
      assert c == [us[0]];
      assert Join(us, " ") == [] + us[0] + trail;
    } else {
      var lead', gaps', trail' := JoinSpread(us[1..]);
      var j := Join(us, " ");
      assert j == us[0] + " " + Join(us[1..], " ");
      SpaceBefore(lead');
      SpreadStep(us[0], Join(us[1..], " "), lead', Weave(c', gaps'), trail');
      if us[0] == [] {
        lead, gaps, trail := " " + lead', gaps', trail';
        assert c == c';
      } else {
        lead, gaps, trail := [], [" " + lead'] + gaps', trail';
        GapsCons(" " + lead', gaps');
        WeaveCons(us[0], " " + lead', c', gaps');
        assert c == [us[0]] + c';
      }
    }
  }

  /** Stripping `?.,!` from whitespace-free pieces leaves whitespace-free
      pieces, and keeping the non-empty ones gives the shape of a split. */
  lemma StrippedShape(t: seq<string>)
    requires forall k :: 0 <= k < |t| ==> NoSpace(t[k])
    ensures var c := Filter(NonEmpty, StripEach(t));
      forall k :: 0 <= k < |c| ==> c[k] != [] && NoSpace(c[k])
  {
    var us := StripEach(t);
    var c := Filter(NonEmpty, us);
    FilterMembers(NonEmpty, us);
    forall k | 0 <= k < |c|
      ensures c[k] != [] && NoSpace(c[k])
    {
      var i :| 0 <= i < |us| && us[i] == c[k];
      StripPunctNoSpace(t[i]);
    }
  }

  /** Whitespace-free pieces joined with spaces, stripped of `?.,!` and
      trimmed: nothing is left when every piece strips to "", and otherwise
      splitting the result gives back the pieces that strip to something,
      stripped. */
  lemma StrippedJoinWords(t: seq<string>)
    requires forall k :: 0 <= k < |t| ==> NoSpace(t[k])
    ensures var c, q := Filter(NonEmpty, StripEach(t)), Trim(StripPunct(Join(t, " ")));
      && (c == [] ==> q == [])
      && (c != [] ==> q != [] && Split(q) == c)
  {
    StripPunctJoin(t, " ");
    if Filter(NonEmpty, StripEach(t)) == [] {
      StrippedJoinBlank(StripEach(t));
    } else {
      StrippedShape(t);
      StrippedJoinSplits(StripEach(t));
    }
  }

  lemma StrippedJoinBlank(us: seq<string>)
    requires Filter(NonEmpty, us) == []
    ensures Trim(Join(us, " ")) == []
  {
    AllEmpty(us);
    JoinBlank(us);
  }

  lemma StrippedJoinSplits(us: seq<string>)
    requires Filter(NonEmpty, us) != []
    requires forall k :: 0 <= k < |Filter(NonEmpty, us)| ==> Filter(NonEmpty, us)[k] != [] && NoSpace(Filter(NonEmpty, us)[k])
    ensures var q := Trim(Join(us, " ")); q != [] && Split(q) == Filter(NonEmpty, us)
  {
    var c := Filter(NonEmpty, us);
    var lead, gaps, trail := JoinSpread(us);
    var m := Weave(c, gaps);
    WeaveTrimmed(c, gaps);
    TrimPadded(lead, m, trail);
    SplitWeave(c, gaps);
  }

  /** A weave of non-empty whitespace-free pieces is non-empty and neither
      begins nor ends with whitespace. */
  lemma WeaveTrimmed(c: seq<string>, gaps: seq<string>)
    requires |c| >= 1 && |gaps| == |c| - 1
    requires forall k :: 0 <= k < |c| ==> c[k] != [] && NoSpace(c[k])
    ensures var m := Weave(c, gaps); m != [] && !IsSpace(m[0]) && !IsSpace(m[|m| - 1])
  {
    var m, w := Weave(c, gaps), c[|c| - 1];
    WeaveEnds(c, gaps);
    assert m[0] == c[0][0];
    assert m[|m| - 1] == m[|m| - |w|..][|w| - 1] == w[|w| - 1];
  }

  // ---------------------------------------------------------------------
  // Lines
  // ---------------------------------------------------------------------

  /** `s.split(c)` for a one-character separator `c`. */
  function SplitOn(s: string, c: char): (r: seq<string>)
    ensures |r| >= 1
    ensures forall k :: 0 <= k < |r| ==> c !in r[k]
    decreases |s|
  {
    if c !in s then [s]
    else
      var i := IndexOf(s, c);
      [s[..i]] + SplitOn(s[i + 1..], c)
  }

  /** The first piece of a split is everything before the first `c`. */
  lemma SplitOnCons(w: string, j: string, c: char)
    requires c !in w
    ensures SplitOn(w + [c] + j, c) == [w] + SplitOn(j, c)
  {
    var s := w + [c] + j;
    assert s[|w|] == c;
    var i := IndexOf(s, c);
    assert i == |w|;
    assert s[..i] == w && s[i + 1..] == j;
  }

  /** Splitting on `c` undoes joining pieces free of `c` with `c`. */
  lemma {:induction false} SplitOnJoin(ls: seq<string>, c: char)
    requires |ls| >= 1
    requires forall k :: 0 <= k < |ls| ==> c !in ls[k]
    ensures SplitOn(Join(ls, [c]), c) == ls
  {
    if |ls| > 1 {
      SplitOnJoin(ls[1..], c);
      SplitOnCons(ls[0], Join(ls[1..], [c]), c);
      assert ls == [ls[0]] + ls[1..];
    }
  }

  /** Joining the pieces with `c` gives back the string that was split. */
  lemma {:induction false} JoinSplitOn(s: string, c: char)
    ensures Join(SplitOn(s, c), [c]) == s
    decreases |s|
  {
    if c in s {
      var i := IndexOf(s, c);
      JoinSplitOn(s[i + 1..], c);
      JoinCons(s[..i], SplitOn(s[i + 1..], c), [c]);
      assert s == s[..i] + [c] + s[i + 1..];
    }
  }

  // ---------------------------------------------------------------------
  // Numbers in template literals
  // ---------------------------------------------------------------------

  predicate IsDigit(c: char) { '0' <= c <= '9' }

  function DigitChar(d: nat): (c: char)
    requires d < 10
    ensures IsDigit(c) && c as int - '0' as int == d
  {
    ('0' as int + d) as char
  }

  /** The number a non-empty string of decimal digits denotes. */
  function DecimalValue(r: string): nat
    requires forall i :: 0 <= i < |r| ==> IsDigit(r[i])
  {
    if r == [] then 0
    else
      assert IsDigit(r[|r| - 1]);
      10 * DecimalValue(r[..|r| - 1]) + (r[|r| - 1] as int - '0' as int)
  }

  /** `${n}` for a non-negative integer: its decimal digits. */
  function NatToString(n: nat): (r: string)
    ensures r != [] && forall i :: 0 <= i < |r| ==> IsDigit(r[i])
    ensures DecimalValue(r) == n
    ensures n == 0 <==> r == "0"
    ensures |r| == 1 || r[0] != '0'
  {
    if n < 10 then [DigitChar(n)]
    else
      var r := NatToString(n / 10) + [DigitChar(n % 10)];
      assert r[..|r| - 1] == NatToString(n / 10);
      r
  }
}
