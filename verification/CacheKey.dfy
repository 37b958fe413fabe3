/** Cache-key canonicalisation: lower-cased host, path, the query's `&`-separated parts in
    sorted order, and the values of the headers a Vary header names. Strings are sequences of
    Unicode characters. */
module CacheKey {
  import opened Text

  predicate IsUpper(c: char) {
    'A' <= c <= 'Z'
  }

  function LowerChar(c: char): (r: char) {
    if IsUpper(c) then ((c as int) + 32) as char else c
  }

  function Lower(s: string): (r: string)
    ensures |r| == |s|
  {
    seq(|s|, i requires 0 <= i < |s| => LowerChar(s[i]))
  }

  predicate NoCapital(s: string) {
    forall i :: 0 <= i < |s| ==> !IsUpper(s[i])
  }

  const CAPITALS: string := "ABCDEFGHIJKLMNOPQRSTUVWXYZ"
  const SMALL: string := "abcdefghijklmnopqrstuvwxyz"

  lemma {:induction false} CapitalAt(i: nat)
    requires i < 26
    ensures |CAPITALS| == 26 && CAPITALS[i] as int == 65 + i
  {
  }

  lemma {:induction false} SmallAt(i: nat)
    requires i < 26
    ensures |SMALL| == 26 && SMALL[i] as int == 97 + i
  {
  }

  /** The letters: the ASCII capitals become the small ones in order, and no other character changes. */
  lemma {:induction false} LowerLetters(i: nat, c: char)
    requires i < 26
    ensures IsUpper(CAPITALS[i]) && LowerChar(CAPITALS[i]) == SMALL[i]
    ensures c !in CAPITALS ==> !IsUpper(c) && LowerChar(c) == c
  {
    hide CAPITALS, SMALL;
    CapitalAt(i);
    SmallAt(i);
    if IsUpper(c) {
      CapitalAt(c as int - 65);
      assert CAPITALS[c as int - 65] == c;
    }
  }

  /** Library functions the key depends on: the Unicode lower case of a character, and the canonical form of a header
      name. */
  datatype Library = Library(lowerRune: char -> char, canonical: string -> string) {
    /** What is known of the library: it lower-cases ASCII capitals as usual, leaves white space alone, and makes no
        slash of another character. */
    ghost predicate Lawful() {
      && (forall c :: IsUpper(c) ==> lowerRune(c) == LowerChar(c))
      && (forall c :: IsSpace(c) ==> lowerRune(c) == c)
      && (forall c :: lowerRune(c) == '/' ==> c == '/')
    }
  }

  /** `strings.ToLower`. */
  function ToLower(lib: Library, s: string): (r: string)
    ensures |r| == |s|
  {
    seq(|s|, i requires 0 <= i < |s| => lib.lowerRune(s[i]))
  }

  // ---------- Split and join ----------

  function SplitOn(q: string, sep: char): (r: seq<string>)
    ensures |r| >= 1
  {
    if q == "" then [""]
    else
      var rest := SplitOn(q[1..], sep);
      if q[0] == sep then [""] + rest else [[q[0]] + rest[0]] + rest[1..]
  }

  function Split(q: string): (r: seq<string>)
    ensures |r| >= 1
  {
    SplitOn(q, '&')
  }

  function Join(parts: seq<string>): (r: string)
    requires |parts| >= 1
  {
    if |parts| == 1 then parts[0] else parts[0] + "&" + Join(parts[1..])
  }

  ghost predicate Plain(parts: seq<string>) {
    forall i :: 0 <= i < |parts| ==> '&' !in parts[i]
  }

  lemma {:induction false} SplitIsPlain(q: string)
    ensures Plain(Split(q))
  {
    if q != "" { SplitIsPlain(q[1..]); }
  }

  lemma {:induction false} JoinSplit(q: string)
    ensures Join(Split(q)) == q
  {
    if q != "" {
      var rest := Split(q[1..]);
      JoinSplit(q[1..]);
      if q[0] == '&' {
        assert ([""] + rest)[1..] == rest;
        assert "" + "&" + q[1..] == q;
      } else {
        var parts := [[q[0]] + rest[0]] + rest[1..];
        assert parts[1..] == rest[1..];
        assert [q[0]] + q[1..] == q;
      }
    }
  }

  /** Splitting a prefix without separators followed by more text. */
  lemma {:induction false} SplitPrefix(p: string, q: string)
    requires '&' !in p
    ensures Split(p + q) == [p + Split(q)[0]] + Split(q)[1..]
  {
    if p == "" {
      assert p + q == q && p + Split(q)[0] == Split(q)[0];
      assert [Split(q)[0]] + Split(q)[1..] == Split(q);
    } else {
      SplitPrefix(p[1..], q);
      assert (p + q)[1..] == p[1..] + q;
      assert [p[0]] + (p[1..] + Split(q)[0]) == p + Split(q)[0];
    }
  }

  lemma {:induction false} SplitJoin(parts: seq<string>)
    requires |parts| >= 1 && Plain(parts)
    ensures Split(Join(parts)) == parts
  {
    if |parts| == 1 {
      SplitPrefix(parts[0], "");
      assert parts[0] + "" == parts[0];
    } else {
      var rest := Join(parts[1..]);
      SplitJoin(parts[1..]);
      SplitPrefix(parts[0], "&" + rest);
      assert Join(parts) == parts[0] + ("&" + rest);
      assert ("&" + rest)[1..] == rest;
      assert parts[0] + "" == parts[0];
    }
  }

  // ---------- Sorting ----------

  /** Byte-wise lexicographic order. */
  predicate Leq(a: string, b: string) {
    if a == "" then true
    else if b == "" then false
    else if a[0] == b[0] then Leq(a[1..], b[1..])
    else a[0] < b[0]
  }

  /** The order is that of the first place where the texts differ, a text coming before its continuations. */
  lemma {:induction false} LeqIff(a: string, b: string)
    ensures Leq(a, b) <==> a <= b || exists i :: 0 <= i < |a| && i < |b| && a[..i] == b[..i] && a[i] < b[i]
  {
    if a != "" && b != "" {
      if a[0] == b[0] {
        LeqIff(a[1..], b[1..]);
        if i :| 0 <= i < |a[1..]| && i < |b[1..]| && a[1..][..i] == b[1..][..i] && a[1..][i] < b[1..][i] {
          assert a[..i + 1] == [a[0]] + a[1..][..i] && b[..i + 1] == [b[0]] + b[1..][..i];
          assert a[i + 1] < b[i + 1];
        }
        if i :| 0 <= i < |a| && i < |b| && a[..i] == b[..i] && a[i] < b[i] {
          assert a[1..][..i - 1] == a[..i][1..] && b[1..][..i - 1] == b[..i][1..];
          assert a[1..][i - 1] < b[1..][i - 1];
        }
        assert a <= b <==> a[1..] <= b[1..] by {
          assert a == [a[0]] + a[1..] && b == [b[0]] + b[1..];
        }
      } else if a[0] < b[0] {
        assert a[..0] == b[..0];
      } else if i :| 0 <= i < |a| && i < |b| && a[..i] == b[..i] && a[i] < b[i] {
        assert i > 0 ==> a[..i][0] == b[..i][0];
      }
    }
  }

  lemma {:induction false} LeqTotal(a: string, b: string)
    ensures Leq(a, b) || Leq(b, a)
  {
    if a != "" && b != "" && a[0] == b[0] { LeqTotal(a[1..], b[1..]); }
  }

  lemma {:induction false} LeqAntisymmetric(a: string, b: string)
    requires Leq(a, b) && Leq(b, a)
    ensures a == b
  {
    if a != "" && b != "" {
      LeqAntisymmetric(a[1..], b[1..]);
      assert a == [a[0]] + a[1..] && b == [b[0]] + b[1..];
    }
  }

  lemma {:induction false} LeqTransitive(a: string, b: string, c: string)
    requires Leq(a, b) && Leq(b, c)
    ensures Leq(a, c)
  {
    if a != "" && a[0] == b[0] && b[0] == c[0] { LeqTransitive(a[1..], b[1..], c[1..]); }
  }

  predicate Sorted(s: seq<string>) {
    forall i :: 0 < i < |s| ==> Leq(s[i - 1], s[i])
  }

  function Insert(x: string, s: seq<string>): (r: seq<string>)
    ensures |r| == |s| + 1
  {
    if s == [] || Leq(x, s[0]) then [x] + s else [s[0]] + Insert(x, s[1..])
  }

  function Sort(s: seq<string>): (r: seq<string>)
    ensures |r| == |s|
  {
    if s == [] then [] else Insert(s[0], Sort(s[1..]))
  }

  lemma {:induction false} InsertSorts(x: string, s: seq<string>)
    requires Sorted(s)
    ensures Sorted(Insert(x, s)) && multiset(Insert(x, s)) == multiset(s) + multiset{x}
  {
    if s != [] && !Leq(x, s[0]) {
      LeqTotal(x, s[0]);
      var rest := Insert(x, s[1..]);
      InsertSorts(x, s[1..]);
      assert s == [s[0]] + s[1..];
      assert rest[0] == x || rest[0] == s[1];
    }
  }

  lemma {:induction false} SortSorts(s: seq<string>)
    ensures Sorted(Sort(s)) && multiset(Sort(s)) == multiset(s)
  {
    if s != [] {
      SortSorts(s[1..]);
      InsertSorts(s[0], Sort(s[1..]));
      assert s == [s[0]] + s[1..];
    }
  }

  lemma {:induction false} FirstIsLeast(s: seq<string>, i: nat)
    requires Sorted(s) && i < |s|
    ensures Leq(s[0], s[i])
    decreases i
  {
    if i == 0 {
      LeqTotal(s[0], s[0]);
    } else {
      FirstIsLeast(s, i - 1);
      LeqTransitive(s[0], s[i - 1], s[i]);
    }
  }

  lemma {:induction false} HeadsAgree(a: seq<string>, b: seq<string>)
    requires Sorted(a) && Sorted(b) && multiset(a) == multiset(b) && a != [] && b != []
    ensures a[0] == b[0]
  {
    assert a[0] in multiset(b) && b[0] in multiset(a);
    var i :| 0 <= i < |b| && b[i] == a[0];
    var j :| 0 <= j < |a| && a[j] == b[0];
    FirstIsLeast(b, i);
    FirstIsLeast(a, j);
    LeqAntisymmetric(a[0], b[0]);
  }

  lemma {:induction false} TailMultiset(s: seq<string>)
    requires s != []
    ensures multiset(s[1..]) == multiset(s) - multiset{s[0]}
  {
    assert s == [s[0]] + s[1..];
  }

  /** The sorted arrangement of a multiset is unique. */
  lemma {:induction false} SortedIsUnique(a: seq<string>, b: seq<string>)
    requires Sorted(a) && Sorted(b) && multiset(a) == multiset(b)
    ensures a == b
  {
    assert |multiset(a)| == |a| && |multiset(b)| == |b|;
    if a != [] {
      HeadsAgree(a, b);
      TailMultiset(a);
      TailMultiset(b);
      SortedIsUnique(a[1..], b[1..]);
      assert a == [a[0]] + a[1..] && b == [b[0]] + b[1..];
    }
  }

  // ---------- The canonical query ----------

  /** What the query contributes to the key; a query without a separator is copied as it is. */
  function SortedQuery(q: string): (r: string) {
    if '&' !in q then q else Join(Sort(Split(q)))
  }

  /** The copy of a separator-free query agrees with the sorting path. */
  lemma FastPathAgrees(q: string)
    ensures SortedQuery(q) == Join(Sort(Split(q)))
  {
    if '&' !in q {
      SplitPrefix(q, "");
      assert q + "" == q;
      assert Split(q) == [q];
      assert Sort([q]) == Insert(q, Sort([q][1..])) == [q];
    }
  }

  /** Two queries canonicalise alike exactly when their parts are permutations of each other. */
  lemma SortedQueryIff(q1: string, q2: string)
    ensures SortedQuery(q1) == SortedQuery(q2) <==> multiset(Split(q1)) == multiset(Split(q2))
  {
    FastPathAgrees(q1);
    FastPathAgrees(q2);
    var s1, s2 := Sort(Split(q1)), Sort(Split(q2));
    SortSorts(Split(q1));
    SortSorts(Split(q2));
    PlainKept(q1);
    PlainKept(q2);
    SplitJoin(s1);
    SplitJoin(s2);
    if multiset(Split(q1)) == multiset(Split(q2)) {
      SortedIsUnique(s1, s2);
    }
  }

  lemma PlainKept(q: string)
    ensures Plain(Sort(Split(q)))
  {
    SplitIsPlain(q);
    SortSorts(Split(q));
    var parts, s := Split(q), Sort(Split(q));
    forall i | 0 <= i < |s|
      ensures '&' !in s[i]
    {
      assert s[i] in multiset(s);
      assert s[i] in parts;
    }
  }

  // ---------- The Vary part ----------

  /** What one part of a Vary list contributes: its header name, normalised, or nothing if it is blank. */
  function NameOf(lib: Library, part: string): (names: seq<string>) {
    var h := TrimSpace(ToLower(lib, part));
    if h == "" then [] else [lib.canonical(h)]
  }

  /** The header names of a Vary list in the order given. */
  function NamesOf(lib: Library, parts: seq<string>): (names: seq<string>) {
    if parts == [] then [] else NamesOf(lib, parts[..|parts| - 1]) + NameOf(lib, parts[|parts| - 1])
  }

  /** The names a Vary header contributes, sorted; none for `*`. */
  function VaryNames(lib: Library, vary: string): (names: seq<string>) {
    if vary == "*" then [] else Sort(NamesOf(lib, SplitOn(vary, ',')))
  }

  /** `name=value` for every name. */
  function Pairs(names: seq<string>, get: string -> string): (pairs: seq<string>)
    ensures |pairs| == |names|
  {
    seq(|names|, i requires 0 <= i < |names| => names[i] + "=" + get(names[i]))
  }

  function VarySuffix(names: seq<string>, get: string -> string): (r: string) {
    if names == [] then "" else "|vary:" + Join(Pairs(names, get))
  }

  /** Two requests with the same values for the named headers. */
  ghost predicate Agree(names: seq<string>, g1: string -> string, g2: string -> string) {
    forall i :: 0 <= i < |names| ==> g1(names[i]) == g2(names[i])
  }

  /** No value but the last holds the separator. */
  ghost predicate FreeBeforeLast(names: seq<string>, get: string -> string) {
    forall i :: 0 <= i < |names| - 1 ==> '&' !in get(names[i])
  }

  lemma {:induction false} HeadUnique(sep: char, v1: string, r1: string, v2: string, r2: string)
    requires sep !in v1 && sep !in v2 && v1 + [sep] + r1 == v2 + [sep] + r2
    ensures v1 == v2 && r1 == r2
  {
    var s := v1 + [sep] + r1;
    assert s[|v1|] == sep && (v2 + [sep] + r2)[|v2|] == sep;
    assert forall i :: 0 <= i < |v1| ==> s[i] == v1[i];
    assert forall i :: 0 <= i < |v2| ==> s[i] == v2[i];
    assert |v1| == |v2|;
    assert v1 == s[..|v1|] == v2;
    assert r1 == s[|v1| + 1..] == r2;
  }

  lemma {:induction false} PairsTail(names: seq<string>, get: string -> string)
    requires names != []
    ensures Pairs(names, get)[1..] == Pairs(names[1..], get) && Pairs(names, get)[0] == names[0] + "=" + get(names[0])
  {
  }

  lemma {:induction false} PairsSplit(names: seq<string>, n: nat, get: string -> string)
    requires n == |names| - 1
    ensures Pairs(names, get) == Pairs(names[..n], get) + [names[n] + "=" + get(names[n])]
  {
  }

  lemma {:induction false} JoinedAgree(names: seq<string>, g1: string -> string, g2: string -> string)
    requires names != [] && FreeBeforeLast(names, g1) && FreeBeforeLast(names, g2)
    requires Join(Pairs(names, g1)) == Join(Pairs(names, g2))
    ensures Agree(names, g1, g2)
    decreases |names|
  {
    var a, v1, v2 := names[0] + "=", g1(names[0]), g2(names[0]);
    PairsTail(names, g1);
    PairsTail(names, g2);
    if |names| == 1 {
      CancelPrefix(a, v1, v2);
    } else {
      var rest := names[1..];
      var r1, r2 := Join(Pairs(rest, g1)), Join(Pairs(rest, g2));
      Associate(a, v1, "&");
      Associate(a, v2, "&");
      Associate(a, v1 + "&", r1);
      Associate(a, v2 + "&", r2);
      CancelPrefix(a, v1 + "&" + r1, v2 + "&" + r2);
      HeadUnique('&', v1, r1, v2, r2);
      assert forall i :: 0 <= i < |rest| ==> rest[i] == names[i + 1];
      JoinedAgree(rest, g1, g2);
      assert forall i :: 1 <= i < |names| ==> names[i] == rest[i - 1];
    }
  }

  /** If no value before the last holds the separator, two requests get the same Vary part exactly when they agree on
      every named header. */
  lemma {:induction false} SuffixIff(names: seq<string>, g1: string -> string, g2: string -> string)
    requires FreeBeforeLast(names, g1) && FreeBeforeLast(names, g2)
    ensures VarySuffix(names, g1) == VarySuffix(names, g2) <==> Agree(names, g1, g2)
  {
    if names != [] {
      CancelPrefix("|vary:", Join(Pairs(names, g1)), Join(Pairs(names, g2)));
      if Agree(names, g1, g2) {
        assert Pairs(names, g1) == Pairs(names, g2);
      } else if VarySuffix(names, g1) == VarySuffix(names, g2) {
        JoinedAgree(names, g1, g2);
      }
    }
  }

  // ---------- Values that hold the separator ----------

  /** A request with one header only. */
  function Just(name: string, value: string): (get: string -> string) {
    k => if k == name then value else ""
  }

  /** Two different requests that the Vary part of a list does not tell apart. */
  ghost predicate Collide(names: seq<string>, g1: string -> string, g2: string -> string) {
    VarySuffix(names, g1) == VarySuffix(names, g2) && !Agree(names, g1, g2)
  }

  /** Values are written unescaped, so for every two names there are two different requests with one Vary part. */
  lemma {:induction false} PairCollides(a: string, b: string)
    requires a != b
    ensures Collide([a, b], Just(a, "&" + b + "="), Just(b, "&" + b + "="))
  {
    var v := "&" + b + "=";
    var names := [a, b];
    assert names[1..] == [b] && [b][1..] == [];
    forall get: string -> string ensures Join(Pairs(names, get)) == (a + "=" + get(a)) + "&" + (b + "=" + get(b)) {
      PairsTail(names, get);
      PairsTail([b], get);
    }
    assert (a + "=" + v) + "&" + (b + "=" + "") == (a + "=" + "") + "&" + (b + "=" + v);
    assert Just(a, v)(names[0]) == v && Just(b, v)(names[0]) == "";
  }

  /** Every list of at least two names whose last name occurs once collides in the same way. */
  lemma {:induction false} ListCollides(names: seq<string>) returns (g1: string -> string, g2: string -> string)
    requires |names| >= 2 && names[|names| - 1] !in names[..|names| - 1]
    ensures Collide(names, g1, g2)
  {
    var n := |names| - 1;
    var init, a, b := names[..n], names[0], names[n];
    var start := Join(Pairs(init, Just(b, "")));
    var open := start + "&" + (b + "=");
    FirstPair(init, b, "");
    assert open[..|a| + 1] == a + "=";
    var value := open[|a| + 1..];
    assert a + "=" + value == open;
    g1 := Just(a, value);
    PairsTail(names, g1);
    var rest := "&" + Join(Pairs(names[1..], g1));
    Associate(open, "&", Join(Pairs(names[1..], g1)));
    assert Join(Pairs(names, g1)) == open + rest;
    g2 := Just(b, rest);
    PairsSplit(names, n, g2);
    assert Pairs(init, g2) == Pairs(init, Just(b, ""));
    JoinSnoc(Pairs(init, g2), b + "=" + rest);
    Associate(start + "&", b + "=", rest);
    assert Join(Pairs(names, g2)) == open + rest;
    assert init[0] == a && a != b;
    assert g1(names[0]) == value && g2(names[0]) == "";
  }

  /** A joined list starts with its first name. */
  lemma {:induction false} FirstPair(init: seq<string>, b: string, value: string)
    requires init != [] && b !in init
    ensures |Join(Pairs(init, Just(b, value)))| >= |init[0]| + 1
    ensures Join(Pairs(init, Just(b, value)))[..|init[0]| + 1] == init[0] + "="
  {
    var pairs := Pairs(init, Just(b, value));
    assert pairs[0] == init[0] + "=" + "" == init[0] + "=";
  }

  ghost predicate AllSame(names: seq<string>) {
    forall i, j :: 0 <= i < |names| && 0 <= j < |names| ==> names[i] == names[j]
  }

  /** Copies of one name: a longer value makes a longer list. */
  lemma {:induction false} LongerValue(names: seq<string>, g1: string -> string, g2: string -> string)
    requires names != [] && AllSame(names) && |g1(names[0])| < |g2(names[0])|
    ensures |Join(Pairs(names, g1))| < |Join(Pairs(names, g2))|
    decreases |names|
  {
    PairsTail(names, g1);
    PairsTail(names, g2);
    if |names| > 1 {
      assert names[1..][0] == names[0];
      LongerValue(names[1..], g1, g2);
    }
  }

  lemma {:induction false} StartsWithPair(names: seq<string>, get: string -> string)
    requires names != []
    ensures var pair := names[0] + "=" + get(names[0]); pair <= Join(Pairs(names, get))
  {
    PairsTail(names, get);
  }

  /** Copies of one name separate any two values. */
  lemma {:induction false} OneNameSeparates(names: seq<string>, g1: string -> string, g2: string -> string)
    requires AllSame(names) && VarySuffix(names, g1) == VarySuffix(names, g2)
    ensures Agree(names, g1, g2)
  {
    if names != [] {
      var a := names[0];
      CancelPrefix("|vary:", Join(Pairs(names, g1)), Join(Pairs(names, g2)));
      if |g1(a)| < |g2(a)| { LongerValue(names, g1, g2); }
      if |g2(a)| < |g1(a)| { LongerValue(names, g2, g1); }
      StartsWithPair(names, g1);
      StartsWithPair(names, g2);
      var p1, p2 := a + "=" + g1(a), a + "=" + g2(a);
      assert p1 == Join(Pairs(names, g1))[..|p1|] == p2;
      CancelPrefix(a + "=", g1(a), g2(a));
    }
  }

  // ---------- Names that are repeated ----------

  /** A text written n times. */
  function Power(w: string, n: nat): (r: string) {
    if n == 0 then "" else Power(w, n - 1) + w
  }

  function Repeat(name: string, n: nat): (names: seq<string>) {
    seq(n, _ => name)
  }

  /** What writing one name and its value appends, with the separator in front. */
  function Piece(name: string, value: string): (r: string) {
    "&" + (name + "=" + value)
  }

  /** The Vary part with a separator in front of every name, which makes it a concatenation. */
  function Pieces(names: seq<string>, get: string -> string): (r: string) {
    if names == [] then ""
    else
      var n := |names| - 1;
      Pieces(names[..n], get) + Piece(names[n], get(names[n]))
  }

  lemma {:induction false} PiecesJoin(names: seq<string>, get: string -> string)
    requires names != []
    ensures "&" + Join(Pairs(names, get)) == Pieces(names, get)
    decreases |names|
  {
    var n := |names| - 1;
    var last := names[n] + "=" + get(names[n]);
    PairsSplit(names, n, get);
    if n == 0 {
      assert names[..0] == [];
      assert Pairs(names[..0], get) + [last] == [last];
      assert Pieces(names[..0], get) + ("&" + last) == "&" + last;
    } else {
      PiecesJoin(names[..n], get);
      var init := Join(Pairs(names[..n], get));
      JoinSnoc(Pairs(names[..n], get), last);
      Associate(init, "&", last);
      Associate("&", init, "&" + last);
    }
  }

  lemma {:induction false} SamePieces(names: seq<string>, g1: string -> string, g2: string -> string)
    requires Pieces(names, g1) == Pieces(names, g2)
    ensures VarySuffix(names, g1) == VarySuffix(names, g2)
  {
    if names != [] {
      PiecesJoin(names, g1);
      PiecesJoin(names, g2);
      CancelPrefix("&", Join(Pairs(names, g1)), Join(Pairs(names, g2)));
    }
  }

  lemma {:induction false} PiecesLast(names: seq<string>, get: string -> string)
    requires names != []
    ensures var n := |names| - 1; Pieces(names, get) == Pieces(names[..n], get) + Piece(names[n], get(names[n]))
  {
  }

  lemma {:induction false} NoPieces(names: seq<string>, get: string -> string)
    requires names == []
    ensures Pieces(names, get) == ""
  {
  }

  lemma {:induction false} PiecesConcat(a: seq<string>, b: seq<string>, get: string -> string)
    ensures Pieces(a + b, get) == Pieces(a, get) + Pieces(b, get)
    decreases |b|
  {
    hide Pieces, Piece;
    if b == [] {
      NoPieces(b, get);
      assert a + b == a;
      assert Pieces(a, get) + "" == Pieces(a, get);
    } else {
      var n, all := |b| - 1, a + b;
      assert all[..|all| - 1] == a + b[..n] && all[|all| - 1] == b[n];
      PiecesLast(b, get);
      PiecesLast(all, get);
      PiecesConcat(a, b[..n], get);
      Associate(Pieces(a, get), Pieces(b[..n], get), Piece(b[n], get(b[n])));
    }
  }

  lemma {:induction false} PiecesAgree(names: seq<string>, g1: string -> string, g2: string -> string)
    requires Agree(names, g1, g2)
    ensures Pieces(names, g1) == Pieces(names, g2)
  {
    if names != [] { PiecesAgree(names[..|names| - 1], g1, g2); }
  }

  lemma {:induction false} PiecesRepeat(name: string, n: nat, get: string -> string)
    ensures Pieces(Repeat(name, n), get) == Power(Piece(name, get(name)), n)
    decreases n
  {
    if n > 0 {
      assert Repeat(name, n)[..n - 1] == Repeat(name, n - 1);
      PiecesRepeat(name, n - 1, get);
    }
  }

  lemma {:induction false} PowerSum(w: string, i: nat, j: nat)
    ensures Power(w, i + j) == Power(w, i) + Power(w, j)
    decreases j
  {
    if j == 0 {
      assert Power(w, i) + "" == Power(w, i);
    } else {
      PowerSum(w, i, j - 1);
      Associate(Power(w, i), Power(w, j - 1), w);
    }
  }

  lemma {:induction false} PowerOne(w: string)
    ensures Power(w, 1) == w
  {
    assert Power(w, 0) + w == w;
  }

  lemma {:induction false} PieceOf(name: string, value: string)
    ensures Piece(name, value) == Piece(name, "") + value
  {
    assert name + "=" + "" == name + "=";
  }

  /** A request with two headers only. */
  function Two(a: string, v: string, b: string, w: string): (get: string -> string) {
    k => if k == a then v else if k == b then w else ""
  }

  /** Two names whose places follow each other, among others. */
  datatype Blocks = Blocks(pre: seq<string>, a: string, i: nat, mid: seq<string>, b: string, m: nat,
                           post: seq<string>) {
    ghost predicate Valid() {
      && a != b && i >= 1 && m >= 1
      && a !in pre && a !in mid && a !in post && b !in pre && b !in mid && b !in post
    }

    function Names(): (names: seq<string>) {
      pre + Repeat(a, i) + mid + Repeat(b, m) + post
    }

    /** The text from the first name's places to the other's, the names between them having no values. */
    function Core(v: string, w: string): (r: string) {
      Power(Piece(a, v), i) + (Pieces(mid, Two(a, "", b, "")) + Power(Piece(b, w), m))
    }
  }

  lemma {:induction false} BlocksText(l: Blocks, v: string, w: string)
    requires l.Valid()
    ensures var none := Two(l.a, "", l.b, "");
            Pieces(l.Names(), Two(l.a, v, l.b, w)) == Pieces(l.pre, none) + l.Core(v, w) + Pieces(l.post, none)
  {
    hide Pieces, Power, Piece, Repeat;
    var get, none, pa, pb := Two(l.a, v, l.b, w), Two(l.a, "", l.b, ""), Repeat(l.a, l.i), Repeat(l.b, l.m);
    PiecesConcat(l.pre + pa + l.mid + pb, l.post, get);
    PiecesConcat(l.pre + pa + l.mid, pb, get);
    PiecesConcat(l.pre + pa, l.mid, get);
    PiecesConcat(l.pre, pa, get);
    PiecesAgree(l.pre, none, get);
    PiecesAgree(l.mid, none, get);
    PiecesAgree(l.post, none, get);
    PiecesRepeat(l.a, l.i, get);
    PiecesRepeat(l.b, l.m, get);
    var p, x, y, z := Pieces(l.pre, none), Power(Piece(l.a, v), l.i), Pieces(l.mid, none), Power(Piece(l.b, w), l.m);
    Associate(p + x, y, z);
    Associate(p, x, y + z);
  }

  lemma {:induction false} BlocksCollide(l: Blocks, v1: string, w1: string, v2: string, w2: string)
    requires l.Valid() && v1 != v2 && l.Core(v1, w1) == l.Core(v2, w2)
    ensures Collide(l.Names(), Two(l.a, v1, l.b, w1), Two(l.a, v2, l.b, w2))
  {
    BlocksText(l, v1, w1);
    BlocksText(l, v2, w2);
    SamePieces(l.Names(), Two(l.a, v1, l.b, w1), Two(l.a, v2, l.b, w2));
    assert l.Names()[|l.pre|] == l.a;
  }

  /** If one name occurs once, and all places of another come after it and follow each other, the list collides. */
  lemma {:induction false} OnceCollides(l: Blocks) returns (g1: string -> string, g2: string -> string)
    requires l.Valid() && l.i == 1
    ensures Collide(l.Names(), g1, g2)
  {
    hide Pieces, Power, Piece, Collide;
    var c, x, u := Piece(l.a, ""), Pieces(l.mid, Two(l.a, "", l.b, "")), Piece(l.b, "");
    var tail := x + Power(u, l.m);
    var init := Power(u + tail, l.m - 1);
    var value := x + init + u;
    PowerOne(Piece(l.a, value));
    PowerOne(c);
    PieceOf(l.a, value);
    PieceOf(l.b, tail);
    PieceNotEmpty(l.b, "");
    PowerSum(u + tail, l.m - 1, 1);
    PowerOne(u + tail);
    assert (c + value) + tail == c + (x + (init + (u + tail)));
    BlocksCollide(l, value, "", "", tail);
    g1, g2 := Two(l.a, value, l.b, ""), Two(l.a, "", l.b, tail);
  }

  lemma {:induction false} PieceNotEmpty(name: string, value: string)
    ensures Piece(name, value) != ""
  {
  }

  /** If a name is written an odd number of times, at least three, and the next name twice, the list collides. */
  lemma {:induction false} OddTwiceCollides(l: Blocks, j: nat) returns (g1: string -> string, g2: string -> string)
    requires l.Valid() && l.i == 2 * j + 3 && l.mid == [] && l.m == 2
    ensures Collide(l.Names(), g1, g2)
  {
    hide Power, Piece, Collide;
    var p, q, i := Piece(l.a, ""), Piece(l.b, ""), l.i;
    var t := Power(p, i) + (q + q);
    var v, w1, w2 :=
      Power(p, i - 1) + (q + q), Power(t, j) + Power(p, i) + q, q + Power(t, 2 * j + 1) + Power(p, i) + q;
    PieceOf(l.a, v);
    PieceOf(l.b, w1);
    PieceOf(l.b, w2);
    PowerSum(p, 1, i - 1);
    PowerOne(p);
    Associate(p, Power(p, i - 1), q + q);
    assert Piece(l.a, v) == t;
    OddTwiceWords(Power(p, i), q, t, j);
    PowerTwo(Piece(l.b, w1));
    PowerTwo(Piece(l.b, w2));
    PieceNotEmpty(l.b, "");
    OddTwiceCore(l, v, w1);
    OddTwiceCore(l, "", w2);
    BlocksCollide(l, v, w1, "", w2);
    g1, g2 := Two(l.a, v, l.b, w1), Two(l.a, "", l.b, w2);
  }

  lemma {:induction false} OddTwiceCore(l: Blocks, v: string, w: string)
    requires l.mid == [] && l.m == 2
    ensures l.Core(v, w) == Power(Piece(l.a, v), l.i) + Power(Piece(l.b, w), 2)
  {
    hide Power, Piece;
    assert "" + Power(Piece(l.b, w), 2) == Power(Piece(l.b, w), 2);
  }

  lemma {:induction false} PowerTwo(w: string)
    ensures Power(w, 2) == w + w
  {
    PowerOne(w);
  }

  lemma {:induction false} OddTwiceWords(p: string, q: string, t: string, j: nat)
    requires t == p + (q + q)
    ensures var y1, y2 := q + (Power(t, j) + p + q), q + (q + Power(t, 2 * j + 1) + p + q);
            Power(t, 2 * j + 3) + (y1 + y1) == p + (y2 + y2)
  {
    hide Power;
    var tj, s := Power(t, j), Power(t, 2 * j + 1);
    PowerOne(t);
    PowerSum(t, j, 1);
    PowerSum(t, j + 1, j);
    PowerSum(t, 1, 2 * j + 1);
    PowerSum(t, 2 * j + 2, 1);
    assert Power(t, 2 * j + 3) == t + s + t && s == tj + t + tj;
    SquareWords(p, q, tj);
    SquareWords(p, q, q + s);
    assert p + (q + (q + s + t + (q + s)) + (p + q)) == (p + (q + q)) + s + t + (q + s + (p + q));
  }

  lemma {:induction false} SquareWords(p: string, q: string, z: string)
    ensures var y := q + (z + p + q); y + y == q + (z + (p + (q + q)) + z) + (p + q)
  {
  }

  ghost predicate Separates(names: seq<string>) {
    forall g1: string -> string, g2: string -> string ::
      VarySuffix(names, g1) == VarySuffix(names, g2) ==> Agree(names, g1, g2)
  }

  /** The name at place k occurs nowhere else. */
  ghost predicate Once(names: seq<string>, k: nat) {
    k < |names| && forall i :: 0 <= i < |names| && names[i] == names[k] ==> i == k
  }

  ghost predicate SomeOnce(names: seq<string>) {
    exists k :: Once(names, k)
  }

  lemma {:induction false} LeqFrom(names: seq<string>, i: nat, j: nat)
    requires Sorted(names) && i <= j < |names|
    ensures Leq(names[i], names[j])
  {
    FirstIsLeast(names[i..], j - i);
  }

  /** Where the last name of a sorted list begins. */
  lemma {:induction false} LastBlock(names: seq<string>) returns (j: nat)
    requires Sorted(names) && names != []
    ensures j < |names| && names[j..] == Repeat(names[|names| - 1], |names| - j)
    ensures names[|names| - 1] !in names[..j]
  {
    var n := |names| - 1;
    j := n;
    while j > 0 && names[j - 1] == names[n]
      invariant j <= n && forall k :: j <= k <= n ==> names[k] == names[n]
    {
      j := j - 1;
    }
    if names[n] in names[..j] {
      var k :| 0 <= k < j && names[k] == names[n];
      LeqFrom(names, k, j - 1);
      LeqFrom(names, j - 1, n);
      LeqAntisymmetric(names[j - 1], names[n]);
    }
  }

  lemma {:induction false} LastOnce(names: seq<string>)
    requires names != [] && Once(names, |names| - 1)
    ensures names[|names| - 1] !in names[..|names| - 1] && (!AllSame(names) ==> |names| >= 2)
  {
  }

  /** A sorted list of several names, one of which occurs once, collides. */
  lemma {:induction false} SortedCollides(names: seq<string>, k: nat)
    returns (g1: string -> string, g2: string -> string)
    requires Sorted(names) && !AllSame(names) && Once(names, k)
    ensures Collide(names, g1, g2)
  {
    hide Collide, VarySuffix, Agree;
    var n := |names| - 1;
    if k == n {
      LastOnce(names);
      g1, g2 := ListCollides(names);
    } else {
      var j := LastBlock(names);
      assert k < j;
      var l := Blocks(names[..k], names[k], 1, names[k + 1..j], names[n], n + 1 - j, []);
      assert l.Names() == names;
      g1, g2 := OnceCollides(l);
    }
  }

  /** The Vary part of a list tells apart any two requests that differ in a named header if it names one header only;
      and only then, if the last name of the list occurs once or the list is sorted and some name of it occurs once. */
  lemma {:induction false} SeparatesIff(names: seq<string>)
    ensures AllSame(names) ==> Separates(names)
    ensures (names != [] && Once(names, |names| - 1)) || (Sorted(names) && SomeOnce(names)) ==>
              (Separates(names) <==> AllSame(names))
  {
    hide VarySuffix, Agree, Sorted, Once;
    if AllSame(names) {
      forall g1: string -> string, g2: string -> string | VarySuffix(names, g1) == VarySuffix(names, g2)
        ensures Agree(names, g1, g2)
      {
        OneNameSeparates(names, g1, g2);
      }
    } else if Once(names, |names| - 1) {
      LastOnce(names);
      var g1, g2 := ListCollides(names);
    } else if Sorted(names) && SomeOnce(names) {
      var k :| Once(names, k);
      var g1, g2 := SortedCollides(names, k);
    }
  }

  // ---------- Spelling of the Vary header ----------

  lemma {:induction false} NamesLast(lib: Library, parts: seq<string>)
    requires parts != []
    ensures NamesOf(lib, parts) == NamesOf(lib, parts[..|parts| - 1]) + NameOf(lib, parts[|parts| - 1])
  {
  }

  lemma {:induction false} NamesEmpty(lib: Library)
    ensures NamesOf(lib, []) == []
  {
  }

  lemma {:induction false} NamesConcat(lib: Library, a: seq<string>, b: seq<string>)
    ensures NamesOf(lib, a + b) == NamesOf(lib, a) + NamesOf(lib, b)
  {
    hide NamesOf, NameOf;
    if b == [] {
      NamesEmpty(lib);
      assert a + b == a;
    } else {
      var n := |b| - 1;
      var all := a + b;
      assert all[..|all| - 1] == a + b[..n] && all[|all| - 1] == b[n];
      NamesConcat(lib, a, b[..n]);
      NamesLast(lib, b);
      NamesLast(lib, all);
    }
  }

  lemma {:induction false} RemoveAt(b: seq<string>, j: nat)
    requires j < |b|
    ensures multiset(b) == multiset(b[..j] + b[j + 1..]) + multiset{b[j]}
  {
    assert b == b[..j] + [b[j]] + b[j + 1..];
  }

  lemma {:induction false} NamesAround(lib: Library, b: seq<string>, j: nat)
    requires j < |b|
    ensures multiset(NamesOf(lib, b)) == multiset(NamesOf(lib, b[..j] + b[j + 1..])) + multiset(NamesOf(lib, [b[j]]))
  {
    hide NamesOf;
    assert b == b[..j] + [b[j]] + b[j + 1..];
    NamesConcat(lib, b[..j], b[j + 1..]);
    NamesConcat(lib, b[..j], [b[j]]);
    NamesConcat(lib, b[..j] + [b[j]], b[j + 1..]);
  }

  /** Permuted parts contribute permuted names. */
  lemma {:induction false} NamesPermuted(lib: Library, a: seq<string>, b: seq<string>)
    requires multiset(a) == multiset(b)
    ensures multiset(NamesOf(lib, a)) == multiset(NamesOf(lib, b))
  {
    hide NamesOf;
    assert |multiset(a)| == |a| && |multiset(b)| == |b|;
    if a == [] {
      assert b == [];
    } else {
      var n := |a| - 1;
      assert a[n] in multiset(b);
      var j :| 0 <= j < |b| && b[j] == a[n];
      RemoveAt(a, n);
      RemoveAt(b, j);
      assert a[..n] + a[n + 1..] == a[..n];
      assert multiset(a[..n]) == multiset(a) - multiset{a[n]} &&
             multiset(b[..j] + b[j + 1..]) == multiset(b) - multiset{b[j]};
      NamesPermuted(lib, a[..n], b[..j] + b[j + 1..]);
      NamesAround(lib, a, n);
      NamesAround(lib, b, j);
    }
  }

  /** The same header name, up to letter case and blanks around it. */
  ghost predicate Respelled(lib: Library, part: string, other: string) {
    exists pre: string, core: string, post: string ::
      Blank(pre) && Blank(post) && other == pre + core + post && ToLower(lib, core) == ToLower(lib, part)
  }

  lemma {:induction false} LowerBlank(lib: Library, s: string)
    requires lib.Lawful() && Blank(s)
    ensures ToLower(lib, s) == s
  {
  }

  lemma {:induction false} RespelledName(lib: Library, part: string, other: string)
    requires lib.Lawful() && Respelled(lib, part, other)
    ensures NameOf(lib, other) == NameOf(lib, part)
  {
    var pre: string, core: string, post: string :|
      Blank(pre) && Blank(post) && other == pre + core + post && ToLower(lib, core) == ToLower(lib, part);
    LowerBlank(lib, pre);
    LowerBlank(lib, post);
    assert ToLower(lib, other) == pre + ToLower(lib, core) + post;
    TrimPadded(pre, ToLower(lib, core), post);
  }

  lemma {:induction false} NamesRespelled(lib: Library, a: seq<string>, b: seq<string>)
    requires lib.Lawful() && |a| == |b| && forall i :: 0 <= i < |a| ==> Respelled(lib, a[i], b[i])
    ensures NamesOf(lib, a) == NamesOf(lib, b)
  {
    if a != [] {
      var n := |a| - 1;
      NamesRespelled(lib, a[..n], b[..n]);
      RespelledName(lib, a[n], b[n]);
    }
  }

  /** Putting the comma-separated parts of a Vary header in another order, changing their letter case and adding blanks
      around them changes no key. */
  lemma {:induction false} VaryOrderIrrelevant(lib: Library, v1: string, v2: string, parts: seq<string>)
    requires lib.Lawful() && v1 != "*" && v2 != "*"
    requires multiset(parts) == multiset(SplitOn(v1, ',')) && |parts| == |SplitOn(v2, ',')|
    requires forall i :: 0 <= i < |parts| ==> Respelled(lib, parts[i], SplitOn(v2, ',')[i])
    ensures VaryNames(lib, v1) == VaryNames(lib, v2)
  {
    hide SplitOn, NamesOf, Respelled;
    var n1, n2 := NamesOf(lib, SplitOn(v1, ',')), NamesOf(lib, SplitOn(v2, ','));
    NamesPermuted(lib, parts, SplitOn(v1, ','));
    NamesRespelled(lib, parts, SplitOn(v2, ','));
    SortSorts(n1);
    SortSorts(n2);
    SortedIsUnique(Sort(n1), Sort(n2));
  }

  /** `*` names nothing, so such a key does not depend on the request's headers. */
  lemma {:induction false} StarNamesNothing(lib: Library, get: string -> string)
    ensures VaryNames(lib, "*") == [] && VaryPart(lib, "*", get) == ""
  {
  }

  /** A single name without blanks is lower-cased and canonicalised; a blank part names nothing. */
  lemma {:induction false} OneName(lib: Library, vary: string)
    requires lib.Lawful() && ',' !in vary && vary != "*"
    ensures vary != "" && NoSpace(ToLower(lib, vary)) ==> VaryNames(lib, vary) == [lib.canonical(ToLower(lib, vary))]
    ensures Blank(vary) ==> VaryNames(lib, vary) == []
  {
    hide NameOf, Sort;
    OnePart(vary);
    NamesLast(lib, [vary]);
    NamesEmpty(lib);
    assert [vary][..0] == [] && NamesOf(lib, [vary]) == NameOf(lib, vary);
    NameOfPlain(lib, vary);
    SortShort(NameOf(lib, vary));
  }

  lemma {:induction false} OnePart(s: string)
    requires ',' !in s
    ensures SplitOn(s, ',') == [s]
  {
    if s != "" {
      OnePart(s[1..]);
      assert [s[0]] + s[1..] == s;
    }
  }

  lemma {:induction false} SortShort(s: seq<string>)
    requires |s| <= 1
    ensures Sort(s) == s
  {
    if |s| == 1 { assert s[1..] == []; }
  }

  lemma {:induction false} NameOfPlain(lib: Library, part: string)
    requires lib.Lawful()
    ensures |NameOf(lib, part)| <= 1
    ensures part != "" && NoSpace(ToLower(lib, part)) ==> NameOf(lib, part) == [lib.canonical(ToLower(lib, part))]
    ensures Blank(part) ==> NameOf(lib, part) == []
  {
    if NoSpace(ToLower(lib, part)) { TrimKeeps(ToLower(lib, part)); }
    if Blank(part) {
      LowerBlank(lib, part);
      TrimPadded(part, "", "");
      assert part + "" + "" == part;
    }
  }

  /** A blank part among others names nothing. */
  lemma {:induction false} BlankNamesNothing(lib: Library, a: seq<string>, blank: string, b: seq<string>)
    requires lib.Lawful() && Blank(blank)
    ensures NamesOf(lib, a + [blank] + b) == NamesOf(lib, a + b)
  {
    hide NamesOf, NameOf;
    NamesConcat(lib, a + [blank], b);
    NamesConcat(lib, a, [blank]);
    NamesConcat(lib, a, b);
    NamesLast(lib, [blank]);
    NamesEmpty(lib);
    NameOfPlain(lib, blank);
    assert [blank][..0] == [];
  }

  // ---------- The key ----------

  /** The host's contribution. Without query and Vary a host with an ASCII capital is lower-cased as Unicode, otherwise
      only its ASCII letters are. */
  function HostPart(lib: Library, host: string, plain: bool): (r: string)
    ensures |r| == |host|
  {
    if NoCapital(host) then host else if plain then ToLower(lib, host) else Lower(host)
  }

  function QueryPart(query: string): (r: string) {
    if query == "" then "" else "?" + SortedQuery(query)
  }

  function VaryPart(lib: Library, vary: string, get: string -> string): (r: string) {
    if vary == "" then "" else VarySuffix(VaryNames(lib, vary), get)
  }

  /** The key of a request with the given query, Vary header and request headers. */
  function Key(lib: Library, host: string, path: string, query: string, vary: string,
               get: string -> string): (r: string) {
    HostPart(lib, host, query == "" && vary == "") + path + QueryPart(query) + VaryPart(lib, vary, get)
  }

  lemma {:induction false} QueryPartIff(q1: string, q2: string)
    ensures QueryPart(q1) == QueryPart(q2) <==> multiset(Split(q1)) == multiset(Split(q2))
    ensures QueryPart(q1) == "" <==> q1 == ""
  {
    SortedQueryIff(q1, q2);
    SortedQueryEmpty(q1);
    SortedQueryEmpty(q2);
    CancelPrefix("?", SortedQuery(q1), SortedQuery(q2));
  }

  /** Without Vary, for a fixed host and path, two queries share a key if and only if their parts are permutations of
      each other. */
  lemma {:induction false} SameKeyIff(lib: Library, host: string, path: string, q1: string, q2: string,
                                      get: string -> string)
    ensures Key(lib, host, path, q1, "", get) == Key(lib, host, path, q2, "", get) <==>
            multiset(Split(q1)) == multiset(Split(q2))
  {
    hide SortedQuery, Split, HostPart;
    QueryPartIff(q1, q2);
    QueryPartIff(q2, q1);
    var h1, h2 := HostPart(lib, host, q1 == ""), HostPart(lib, host, q2 == "");
    var k1, k2 := h1 + path + QueryPart(q1), h2 + path + QueryPart(q2);
    assert Key(lib, host, path, q1, "", get) == k1 && Key(lib, host, path, q2, "", get) == k2;
    if (q1 == "") == (q2 == "") {
      CancelPrefix(h1 + path, QueryPart(q1), QueryPart(q2));
    } else {
      assert |QueryPart(q1)| != |QueryPart(q2)|;
      assert |k1| != |k2|;
    }
  }

  /** A key without Vary is the host's part and a rest that holds the path and the query. */
  lemma {:induction false} KeyParts(lib: Library, host: string, p1: string, q1: string, p2: string, q2: string,
                                    get: string -> string)
    ensures Key(lib, host, p1, q1, "", get) == Key(lib, host, p2, q2, "", get) <==>
            && HostPart(lib, host, q1 == "") == HostPart(lib, host, q2 == "")
            && p1 + QueryPart(q1) == p2 + QueryPart(q2)
  {
    hide HostPart, QueryPart;
    var h1, h2 := HostPart(lib, host, q1 == ""), HostPart(lib, host, q2 == "");
    var r1, r2 := p1 + QueryPart(q1), p2 + QueryPart(q2);
    assert Key(lib, host, p1, q1, "", get) == h1 + r1 && Key(lib, host, p2, q2, "", get) == h2 + r2;
    assert (h1 + r1)[..|host|] == h1 && (h2 + r2)[..|host|] == h2;
    assert (h1 + r1)[|host|..] == r1 && (h2 + r2)[|host|..] == r2;
  }

  /** Across paths without a question mark, two requests without Vary share a key if and only if the paths are equal and
      the parts of the queries are permutations of each other. */
  lemma {:induction false} SamePathIff(lib: Library, host: string, p1: string, q1: string, p2: string, q2: string,
                                       get: string -> string)
    requires '?' !in p1 && '?' !in p2
    ensures Key(lib, host, p1, q1, "", get) == Key(lib, host, p2, q2, "", get) <==>
            p1 == p2 && multiset(Split(q1)) == multiset(Split(q2))
  {
    hide SortedQuery, Split, HostPart, Key;
    KeyParts(lib, host, p1, q1, p2, q2, get);
    SameKeyIff(lib, host, p1, q1, q2, get);
    if p1 + QueryPart(q1) == p2 + QueryPart(q2) { PathEnds(p1, q1, p2, q2); }
  }

  lemma {:induction false} QueryMark(path: string, query: string)
    requires '?' !in path
    ensures '?' in path + QueryPart(query) <==> query != ""
    ensures query == "" ==> path + QueryPart(query) == path
    ensures query != "" ==> path + QueryPart(query) == path + "?" + SortedQuery(query)
  {
    hide SortedQuery;
    if query == "" { assert path + "" == path; } else { assert (path + QueryPart(query))[|path|] == '?'; }
  }

  lemma {:induction false} PathEnds(p1: string, q1: string, p2: string, q2: string)
    requires '?' !in p1 && '?' !in p2 && p1 + QueryPart(q1) == p2 + QueryPart(q2)
    ensures p1 == p2
  {
    hide SortedQuery, QueryPart;
    QueryMark(p1, q1);
    QueryMark(p2, q2);
    if q1 != "" { HeadUnique('?', p1, SortedQuery(q1), p2, SortedQuery(q2)); }
  }

  lemma {:induction false} CanonicalIsFixed(q: string)
    ensures SortedQuery(SortedQuery(q)) == SortedQuery(q)
  {
    hide SortedQuery, Sort, Split, Join;
    FastPathAgrees(q);
    PlainKept(q);
    SortSorts(Split(q));
    SplitJoin(Sort(Split(q)));
    SortedQueryIff(SortedQuery(q), q);
  }

  /** The path is written decoded, so it can hold a question mark. Such a request shares its key with one whose path
      has none exactly when what follows its first question mark is a query in canonical form, and the host is
      written alike. */
  lemma {:induction false} PathConfusedIff(lib: Library, host: string, path: string, rest: string, query: string,
                                           get: string -> string)
    requires '?' !in path
    ensures (exists p: string, q: string ::
               '?' !in p && Key(lib, host, path + "?" + rest, query, "", get) == Key(lib, host, p, q, "", get)) <==>
            var tail := rest + QueryPart(query);
            && tail != "" && SortedQuery(tail) == tail
            && HostPart(lib, host, query == "") == HostPart(lib, host, false)
  {
    hide SortedQuery, HostPart, Key;
    var whole, tail := path + "?" + rest, rest + QueryPart(query);
    assert whole + QueryPart(query) == path + "?" + tail;
    if p: string, q: string :|
       '?' !in p && Key(lib, host, whole, query, "", get) == Key(lib, host, p, q, "", get) {
      KeyParts(lib, host, whole, query, p, q, get);
      QueryMark(p, q);
      assert (path + "?" + tail)[|path|] == '?';
      HeadUnique('?', path, tail, p, SortedQuery(q));
      CanonicalIsFixed(q);
      SortedQueryEmpty(q);
    }
    if tail != "" && SortedQuery(tail) == tail && HostPart(lib, host, query == "") == HostPart(lib, host, false) {
      KeyParts(lib, host, whole, query, path, tail, get);
      Associate(path, "?", tail);
    }
  }

  /** For instance the path `/a?b` without a query, and the path `/a` with the query `b`. */
  lemma {:induction false} PathsCollide(lib: Library, host: string, get: string -> string)
    requires NoCapital(host)
    ensures Key(lib, host, "/a?b", "", "", get) == Key(lib, host, "/a", "b", "", get)
  {
    KeyParts(lib, host, "/a?b", "", "/a", "b", get);
    assert QueryPart("b") == "?b" && "/a" + "?b" == "/a?b" + "";
  }

  /** For a fixed host, path, query and Vary header, if no named value before the last holds the separator, two requests
      share a key if and only if they agree on every named header. */
  lemma {:induction false} SameVariantIff(lib: Library, host: string, path: string, query: string, vary: string,
                                          g1: string -> string, g2: string -> string)
    requires vary != "" && FreeBeforeLast(VaryNames(lib, vary), g1) && FreeBeforeLast(VaryNames(lib, vary), g2)
    ensures Key(lib, host, path, query, vary, g1) == Key(lib, host, path, query, vary, g2) <==>
            Agree(VaryNames(lib, vary), g1, g2)
  {
    var names := VaryNames(lib, vary);
    SuffixIff(names, g1, g2);
    SuffixKey(lib, host, path, query, vary, g1, g2);
  }

  lemma {:induction false} SuffixKey(lib: Library, host: string, path: string, query: string, vary: string,
                                     g1: string -> string, g2: string -> string)
    requires vary != ""
    ensures Key(lib, host, path, query, vary, g1) == Key(lib, host, path, query, vary, g2) <==>
            VarySuffix(VaryNames(lib, vary), g1) == VarySuffix(VaryNames(lib, vary), g2)
  {
    hide VaryNames, VarySuffix, HostPart, QueryPart;
    CancelPrefix(HostPart(lib, host, false) + path + QueryPart(query), VarySuffix(VaryNames(lib, vary), g1),
                 VarySuffix(VaryNames(lib, vary), g2));
  }

  /** For a fixed host, path, query and Vary header, the key tells apart all requests that differ in a named header
      if the Vary header names one header only; and only then, if it names some header once. */
  lemma {:induction false} VariantsSeparateIff(lib: Library, host: string, path: string, query: string, vary: string)
    requires vary != ""
    ensures AllSame(VaryNames(lib, vary)) ==> KeysSeparate(lib, host, path, query, vary)
    ensures SomeOnce(VaryNames(lib, vary)) ==>
              (KeysSeparate(lib, host, path, query, vary) <==> AllSame(VaryNames(lib, vary)))
  {
    var names := VaryNames(lib, vary);
    SeparatesIff(names);
    SortSorts(NamesOf(lib, SplitOn(vary, ',')));
    assert Sorted(names);
    hide VaryNames, VarySuffix, Agree, Key, Sorted, SomeOnce, AllSame;
    forall g1: string -> string, g2: string -> string
      ensures Key(lib, host, path, query, vary, g1) == Key(lib, host, path, query, vary, g2) <==>
              VarySuffix(names, g1) == VarySuffix(names, g2)
    {
      SuffixKey(lib, host, path, query, vary, g1, g2);
    }
  }

  /** The key tells apart all requests that differ in a header the Vary header names. */
  ghost predicate KeysSeparate(lib: Library, host: string, path: string, query: string, vary: string) {
    forall g1: string -> string, g2: string -> string ::
      Key(lib, host, path, query, vary, g1) == Key(lib, host, path, query, vary, g2) ==>
        Agree(VaryNames(lib, vary), g1, g2)
  }

  // ---------- Every part of the key ----------

  lemma {:induction false} CancelSuffix(x: string, y: string, end: string)
    ensures x + end == y + end <==> x == y
  {
    if x + end == y + end { assert x == (x + end)[..|x|] && y == (y + end)[..|y|]; }
  }

  /** With Vary too, for one host and the same headers, across paths without a question mark two requests share a key if
      and only if the paths are equal and the parts of the queries are permutations of each other. */
  lemma {:induction false} VaryPathIff(lib: Library, host: string, p1: string, q1: string, p2: string, q2: string,
                                       vary: string, get: string -> string)
    requires vary != "" && '?' !in p1 && '?' !in p2
    ensures Key(lib, host, p1, q1, vary, get) == Key(lib, host, p2, q2, vary, get) <==>
            p1 == p2 && multiset(Split(q1)) == multiset(Split(q2))
  {
    hide HostPart, QueryPart, VarySuffix, VaryNames, Split;
    var h, end := HostPart(lib, host, false), VarySuffix(VaryNames(lib, vary), get);
    var r1, r2 := p1 + QueryPart(q1), p2 + QueryPart(q2);
    assert Key(lib, host, p1, q1, vary, get) == (h + r1) + end && Key(lib, host, p2, q2, vary, get) == (h + r2) + end;
    CancelSuffix(h + r1, h + r2, end);
    CancelPrefix(h, r1, r2);
    QueryPartIff(q1, q2);
    if r1 == r2 {
      PathEnds(p1, q1, p2, q2);
      CancelPrefix(p1, QueryPart(q1), QueryPart(q2));
    }
  }

  lemma {:induction false} HostParts(lib: Library, h1: string, h2: string, path: string, query: string, vary: string,
                                     get: string -> string)
    ensures Key(lib, h1, path, query, vary, get) == Key(lib, h2, path, query, vary, get) <==>
            HostPart(lib, h1, query == "" && vary == "") == HostPart(lib, h2, query == "" && vary == "")
  {
    hide HostPart, QueryPart, VaryPart;
    var plain := query == "" && vary == "";
    var a, b, rest :=
      HostPart(lib, h1, plain), HostPart(lib, h2, plain), path + QueryPart(query) + VaryPart(lib, vary, get);
    assert Key(lib, h1, path, query, vary, get) == a + rest && Key(lib, h2, path, query, vary, get) == b + rest;
    CancelSuffix(a, b, rest);
  }

  /** Two hosts share the key of a path with a query or Vary exactly when they differ in the case of ASCII letters
      only; without either, exactly when the library lower-cases them alike, a host without an ASCII capital being
      left as it is. */
  lemma {:induction false} HostsIff(lib: Library, h1: string, h2: string, path: string, query: string, vary: string,
                                    get: string -> string)
    ensures query != "" || vary != "" ==>
              (Key(lib, h1, path, query, vary, get) == Key(lib, h2, path, query, vary, get) <==> Lower(h1) == Lower(h2))
    ensures Key(lib, h1, path, "", "", get) == Key(lib, h2, path, "", "", get) <==>
            (if NoCapital(h1) then h1 else ToLower(lib, h1)) == (if NoCapital(h2) then h2 else ToLower(lib, h2))
  {
    hide Key, Lower, ToLower, NoCapital;
    HostParts(lib, h1, h2, path, query, vary, get);
    HostParts(lib, h1, h2, path, "", "", get);
    LowerHasNoCapital(h1);
    LowerHasNoCapital(h2);
  }

  /** So without query and Vary two hosts that differ in more than ASCII case can share a key: for instance an ASCII
      capital before the Kelvin sign, which Unicode lower-cases to an ASCII letter, and the two ASCII letters. */
  lemma {:induction false} HostsCollide(lib: Library, path: string, get: string -> string)
    requires lib.Lawful() && lib.lowerRune('\U{212A}') == 'k'
    ensures Lower("A\U{212A}") != Lower("ak")
    ensures Key(lib, "A\U{212A}", path, "", "", get) == Key(lib, "ak", path, "", "", get)
  {
    var h1, h2 := "A\U{212A}", "ak";
    HostsIff(lib, h1, h2, path, "", "", get);
    assert IsUpper(h1[0]) && NoCapital(h2);
    assert ToLower(lib, h1) == h2;
    assert Lower(h1)[1] != Lower(h2)[1];
  }

  lemma {:induction false} SplitChars(q: string, c: char)
    requires c !in q
    ensures forall i :: 0 <= i < |Split(q)| ==> c !in Split(q)[i]
  {
    if q != "" {
      SplitChars(q[1..], c);
      var rest, parts := Split(q[1..]), Split(q);
      forall i | 0 <= i < |parts| ensures c !in parts[i] {
        if q[0] == '&' && i > 0 { assert parts[i] == rest[i - 1]; }
        if q[0] != '&' && i > 0 { assert parts[i] == rest[i]; }
        if q[0] != '&' && i == 0 { assert parts[0] == [q[0]] + rest[0]; }
      }
    }
  }

  lemma {:induction false} JoinChars(parts: seq<string>, c: char)
    requires |parts| >= 1 && c != '&' && forall i :: 0 <= i < |parts| ==> c !in parts[i]
    ensures c !in Join(parts)
  {
    if |parts| > 1 { JoinChars(parts[1..], c); }
  }

  lemma {:induction false} QueryChars(q: string, c: char)
    requires c !in q && c != '&' && c != '?'
    ensures c !in QueryPart(q)
  {
    hide Split, Join, Sort;
    FastPathAgrees(q);
    var parts, s := Split(q), Sort(Split(q));
    SplitChars(q, c);
    SortSorts(parts);
    forall i | 0 <= i < |s| ensures c !in s[i] {
      assert s[i] in multiset(s);
      assert s[i] in parts;
    }
    JoinChars(s, c);
  }

  lemma {:induction false} HostChars(lib: Library, host: string, plain: bool)
    requires lib.Lawful() && '/' !in host
    ensures '/' !in HostPart(lib, host, plain)
  {
  }

  lemma {:induction false} VaryStarts(lib: Library, vary: string, g1: string -> string, g2: string -> string)
    ensures var v1, v2 := VaryPart(lib, vary, g1), VaryPart(lib, vary, g2);
            (v1 == "" <==> v2 == "") && (v1 != "" ==> v1[0] == '|' && v2[0] == '|')
  {
    hide Join;
  }

  /** Texts with no bar, each followed by nothing or by a bar and more, part in one way only. */
  lemma {:induction false} BarUnique(x: string, v: string, y: string, w: string)
    requires '|' !in x && '|' !in y && (v == "" <==> w == "") && (v != "" ==> v[0] == '|' && w[0] == '|')
    ensures x + v == y + w <==> x == y && v == w
  {
    if v == "" {
      assert x + v == x && y + w == y;
    } else if x + v == y + w {
      assert v == "|" + v[1..] && w == "|" + w[1..];
      Associate(x, "|", v[1..]);
      Associate(y, "|", w[1..]);
      HeadUnique('|', x, v[1..], y, w[1..]);
    }
  }

  lemma {:induction false} SlashUnique(h1: string, r1: string, h2: string, r2: string)
    requires '/' !in h1 && '/' !in h2 && r1 != "" && r2 != "" && r1[0] == '/' && r2[0] == '/'
    ensures h1 + r1 == h2 + r2 <==> h1 == h2 && r1 == r2
  {
    if h1 + r1 == h2 + r2 {
      assert r1 == "/" + r1[1..] && r2 == "/" + r2[1..];
      Associate(h1, "/", r1[1..]);
      Associate(h2, "/", r2[1..]);
      HeadUnique('/', h1, r1[1..], h2, r2[1..]);
    }
  }

  /** A host without a slash, a path that begins with one and has no question mark, and no bar in path and query. */
  predicate Ordinary(host: string, path: string, query: string) {
    && '/' !in host && path != "" && path[0] == '/' && '?' !in path && '|' !in path && '|' !in query
  }

  /** The whole key: two ordinary requests under one Vary header share it if and only if their hosts are written
      alike, their paths are equal, the parts of their queries are permutations of each other and their Vary parts
      are equal. */
  lemma {:induction false} KeysIff(lib: Library, h1: string, p1: string, q1: string, g1: string -> string,
                                   h2: string, p2: string, q2: string, g2: string -> string, vary: string)
    requires lib.Lawful() && Ordinary(h1, p1, q1) && Ordinary(h2, p2, q2)
    ensures Key(lib, h1, p1, q1, vary, g1) == Key(lib, h2, p2, q2, vary, g2) <==>
            && HostPart(lib, h1, q1 == "" && vary == "") == HostPart(lib, h2, q2 == "" && vary == "")
            && p1 == p2 && multiset(Split(q1)) == multiset(Split(q2))
            && VaryPart(lib, vary, g1) == VaryPart(lib, vary, g2)
  {
    hide HostPart, QueryPart, VaryPart, Split;
    var a, b := HostPart(lib, h1, q1 == "" && vary == ""), HostPart(lib, h2, q2 == "" && vary == "");
    var v, w := VaryPart(lib, vary, g1), VaryPart(lib, vary, g2);
    var x, y := p1 + QueryPart(q1), p2 + QueryPart(q2);
    assert Key(lib, h1, p1, q1, vary, g1) == a + (x + v) && Key(lib, h2, p2, q2, vary, g2) == b + (y + w);
    HostChars(lib, h1, q1 == "" && vary == "");
    HostChars(lib, h2, q2 == "" && vary == "");
    QueryChars(q1, '|');
    QueryChars(q2, '|');
    VaryStarts(lib, vary, g1, g2);
    assert (x + v)[0] == p1[0] && (y + w)[0] == p2[0];
    SlashUnique(a, x + v, b, y + w);
    BarUnique(x, v, y, w);
    QueryPartIff(q1, q2);
    if x == y {
      PathEnds(p1, q1, p2, q2);
      CancelPrefix(p1, QueryPart(q1), QueryPart(q2));
    }
  }

  /** A bar in the path can make one request's path out of another's header. */
  lemma {:induction false} BarCollides(lib: Library, host: string, vary: string, name: string)
    requires vary != "" && VaryNames(lib, vary) == [name]
    ensures var mark := "|vary:" + name + "=";
            Key(lib, host, "/a" + mark + "b", "", vary, Just(name, "c")) ==
            Key(lib, host, "/a", "", vary, Just(name, "b" + mark + "c"))
  {
    hide HostPart, VaryNames;
    var mark, h := "|vary:" + name + "=", HostPart(lib, host, false);
    forall value ensures VaryPart(lib, vary, Just(name, value)) == mark + value {
      PairsTail([name], Just(name, value));
      assert Pairs([name], Just(name, value)) == [name + "=" + value];
      assert "|vary:" + (name + "=" + value) == mark + value;
    }
    hide VaryPart;
    assert h + ("/a" + mark + "b") + "" + (mark + "c") == h + "/a" + "" + (mark + ("b" + mark + "c"));
  }

  lemma {:induction false} LowerHasNoCapital(s: string)
    ensures NoCapital(Lower(s)) && (NoCapital(s) ==> Lower(s) == s)
  {
  }

  lemma {:induction false} HostCaseKeys(lib: Library, host: string, path: string, query: string, vary: string,
                                        get: string -> string)
    ensures Key(lib, host, path, query, vary, get) == Key(lib, Lower(host), path, query, vary, get) <==>
            query != "" || vary != "" || NoCapital(host) || ToLower(lib, host) == Lower(host)
  {
    LowerHasNoCapital(host);
    hide QueryPart, VaryPart, ToLower, Lower;
    var plain := query == "" && vary == "";
    var a, b, rest :=
      HostPart(lib, host, plain), HostPart(lib, Lower(host), plain), path + QueryPart(query) + VaryPart(lib, vary, get);
    assert Key(lib, host, path, query, vary, get) == a + rest &&
           Key(lib, Lower(host), path, query, vary, get) == b + rest;
    assert (a + rest)[..|host|] == a && (b + rest)[..|host|] == b;
  }

  /** A host and its ASCII lower case share every key with a query or Vary; without either they do exactly when the host
      has no ASCII capital, or the library lower-cases none of its other characters. */
  lemma {:induction false} HostCaseIff(lib: Library, host: string, path: string, query: string, vary: string,
                                       get: string -> string)
    requires lib.Lawful()
    ensures Key(lib, host, path, query, vary, get) == Key(lib, Lower(host), path, query, vary, get) <==>
            || query != "" || vary != "" || NoCapital(host)
            || (forall i :: 0 <= i < |host| && !IsUpper(host[i]) ==> lib.lowerRune(host[i]) == host[i])
  {
    hide Key, ToLower, Lower, NoCapital, IsUpper;
    HostCaseKeys(lib, host, path, query, vary, get);
    LowersAlikeIff(lib, host);
  }

  lemma {:induction false} LowersAlikeIff(lib: Library, host: string)
    requires lib.Lawful()
    ensures ToLower(lib, host) == Lower(host) <==>
            forall i :: 0 <= i < |host| && !IsUpper(host[i]) ==> lib.lowerRune(host[i]) == host[i]
  {
    var a, b := ToLower(lib, host), Lower(host);
    forall i | 0 <= i < |host| ensures a[i] == b[i] <==> IsUpper(host[i]) || lib.lowerRune(host[i]) == host[i] {}
    assert a == b <==> forall i :: 0 <= i < |host| ==> a[i] == b[i];
  }

  /** For instance the host made of an ASCII capital and the accented capital U+00C9. */
  lemma {:induction false} HostCaseFails(lib: Library, path: string, get: string -> string)
    requires lib.Lawful() && lib.lowerRune('\U{00C9}') != '\U{00C9}'
    ensures Key(lib, "A\U{00C9}", path, "", "", get) != Key(lib, Lower("A\U{00C9}"), path, "", "", get)
  {
    var host := "A\U{00C9}";
    HostCaseIff(lib, host, path, "", "", get);
    assert IsUpper(host[0]) && !IsUpper(host[1]);
  }

  lemma {:induction false} CancelPrefix(base: string, x: string, y: string)
    ensures base + x == base + y <==> x == y
  {
    assert (base + x)[|base|..] == x && (base + y)[|base|..] == y;
  }

  lemma SortedQueryEmpty(q: string)
    ensures SortedQuery(q) == "" <==> q == ""
  {
    SortedQueryIff(q, "");
    if SortedQuery(q) == "" {
      var parts := Split(q);
      assert multiset(parts) == multiset{""};
      assert |multiset(parts)| == |parts|;
      assert parts[0] in multiset(parts);
      JoinSplit(q);
    }
  }

  // ---------- The string builder ----------

  method IsLowerAscii(s: string) returns (r: bool)
    ensures r <==> NoCapital(s)
  {
    for i := 0 to |s|
      invariant forall k :: 0 <= k < i ==> !IsUpper(s[k])
    {
      if IsUpper(s[i]) { return false; }
    }
    return true;
  }

  method WriteSortedQuery(prefix: string, q: string) returns (sb: string)
    ensures sb == prefix + SortedQuery(q)
  {
    if '&' !in q { return prefix + q; }
    var parts := Sort(Split(q));
    sb := prefix;
    for i := 0 to |parts|
      invariant i < |parts| ==> sb + (if i > 0 then "&" else "") + Join(parts[i..]) == prefix + Join(parts)
      invariant i == |parts| ==> sb == prefix + Join(parts)
    {
      assert i + 1 < |parts| ==> parts[i..][1..] == parts[i + 1..];
      if i > 0 { sb := sb + "&"; }
      sb := sb + parts[i];
    }
  }

  method ParseVary(lib: Library, vary: string) returns (names: seq<string>)
    ensures names == VaryNames(lib, vary)
  {
    if vary == "*" { return []; }
    names := [];
    var parts := SplitOn(vary, ',');
    for i := 0 to |parts|
      invariant names == NamesOf(lib, parts[..i])
    {
      assert parts[..i + 1][..i] == parts[..i];
      var h := TrimSpace(ToLower(lib, parts[i]));
      if h != "" { names := names + [lib.canonical(h)]; }
    }
    assert parts[..|parts|] == parts;
    names := Sort(names);
  }

  lemma {:induction false} JoinSnoc(parts: seq<string>, x: string)
    requires |parts| >= 1
    ensures Join(parts + [x]) == Join(parts) + "&" + x
  {
    assert (parts + [x])[1..] == parts[1..] + [x];
    if |parts| > 1 {
      JoinSnoc(parts[1..], x);
      Associate(parts[0] + "&", Join(parts[1..]) + "&", x);
      Associate(parts[0] + "&", Join(parts[1..]), "&");
    }
  }

  lemma {:induction false} Associate(a: string, b: string, c: string)
    ensures a + b + c == a + (b + c)
  {
  }

  method WriteVary(prefix: string, names: seq<string>, get: string -> string) returns (sb: string)
    ensures sb == prefix + VarySuffix(names, get)
  {
    if names == [] { return prefix; }
    ghost var pairs := Pairs(names, get);
    ghost var start := prefix + "|vary:";
    assert VarySuffix(names, get) == "|vary:" + Join(pairs);
    hide Join, VarySuffix;
    sb := prefix + "|vary:";
    for i := 0 to |names|
      invariant sb == if i == 0 then start else start + Join(pairs[..i])
    {
      NextPair(start, sb, pairs, i, names[i], get(names[i]));
      if i > 0 { sb := sb + "&"; }
      sb := sb + names[i];
      sb := sb + "=";
      sb := sb + get(names[i]);
    }
    assert pairs[..|names|] == pairs;
    Associate(prefix, "|vary:", Join(pairs));
  }

  lemma {:induction false} NextPair(start: string, sb: string, pairs: seq<string>, i: nat, name: string, value: string)
    requires i < |pairs| && pairs[i] == name + "=" + value && sb == if i == 0 then start else start + Join(pairs[..i])
    ensures (if i > 0 then sb + "&" else sb) + name + "=" + value == start + Join(pairs[..i + 1])
  {
    assert pairs[..i + 1] == pairs[..i] + [pairs[i]];
    var t := if i > 0 then sb + "&" else sb;
    Associate(t, name, "=");
    Associate(t, name + "=", value);
    if i > 0 {
      JoinSnoc(pairs[..i], pairs[i]);
      Associate(start, Join(pairs[..i]), "&");
      Associate(start, Join(pairs[..i]) + "&", pairs[i]);
    }
  }

  method LowerHost(host: string) returns (sb: string)
    ensures sb == if NoCapital(host) then host else Lower(host)
  {
    var lower := IsLowerAscii(host);
    if lower { return host; }
    sb := "";
    for i := 0 to |host|
      invariant sb == Lower(host)[..i]
    {
      sb := sb + [LowerChar(host[i])];
    }
  }

  method NormalizeKey(lib: Library, host: string, path: string, query: string, vary: string, get: string -> string)
    returns (key: string)
    ensures key == Key(lib, host, path, query, vary, get)
  {
    hide NoCapital, Lower, ToLower, SortedQuery, VaryNames, VarySuffix;
    if query == "" && vary == "" {
      var lower := IsLowerAscii(host);
      if lower { key := host + path; } else { key := ToLower(lib, host) + path; }
      assert key + "" + "" == key;
      return;
    }
    key := LowerHost(host);
    key := key + path;
    ghost var base := key;
    if query != "" {
      key := WriteSortedQuery(key + "?", query);
      Associate(base, "?", SortedQuery(query));
    }
    assert key == base + QueryPart(query);
    if vary == "" {
      assert key + "" == key;
      return;
    }
    var names := ParseVary(lib, vary);
    key := WriteVary(key, names, get);
  }
}
