/** Byte-range requests: parsing a Range header and serving the slice it names. */
module RangeHeader {
  import opened Common
  import opened Text

  const PREFIX: string := "bytes="

  // ---------- Strings ----------

  /** First position of a character, or the length when there is none. */
  function IndexOf(s: string, c: char): (r: nat)
    ensures r <= |s| && (r < |s| ==> s[r] == c) && forall i :: 0 <= i < r ==> s[i] != c
  {
    if s == "" || s[0] == c then 0 else 1 + IndexOf(s[1..], c)
  }

  predicate IsDigit(c: char) {
    '0' <= c <= '9'
  }

  ghost predicate AllDigits(s: string) {
    forall i :: 0 <= i < |s| ==> IsDigit(s[i])
  }

  /** Value of a digit string, or None when it holds another character or is empty. */
  function Digits(s: string): (r: Option<nat>) {
    if s == "" then None
    else
      var last := s[|s| - 1];
      if !IsDigit(last) then None
      else if |s| == 1 then Some(last as int - '0' as int)
      else
        match Digits(s[..|s| - 1])
        case None => None
        case Some(v) => Some(10 * v + (last as int - '0' as int))
  }

  /** Decimal conversion with an optional sign, failing outside the 64-bit range. */
  function Atoi(s: string): (r: Option<int>) {
    var signed := s != "" && (s[0] == '+' || s[0] == '-');
    match Digits(if signed then s[1..] else s)
    case None => None
    case Some(v) =>
      var n := if signed && s[0] == '-' then -(v as int) else v;
      if -INT_MAX - 1 <= n <= INT_MAX then Some(n) else None
  }

  function DigitChar(d: nat): (c: char)
    requires d < 10
    ensures IsDigit(c) && c as int - '0' as int == d
  {
    ('0' as int + d) as char
  }

  function Itoa(n: nat): (r: string)
    ensures |r| >= 1
  {
    (if n < 10 then "" else Itoa(n / 10)) + [DigitChar(n % 10)]
  }

  lemma {:induction false} ItoaDigits(n: nat)
    ensures AllDigits(Itoa(n)) && Digits(Itoa(n)) == Some(n)
  {
    if n >= 10 {
      ItoaDigits(n / 10);
      assert Itoa(n)[..|Itoa(n)| - 1] == Itoa(n / 10);
    } else {
      assert Itoa(n) == [DigitChar(n)];
    }
  }

  /** Decimal parsing inverts decimal printing, up to the largest int. */
  lemma {:induction false} AtoiItoa(n: nat)
    ensures Atoi(Itoa(n)) == if n <= INT_MAX then Some(n) else None
  {
    ItoaDigits(n);
    assert IsDigit(Itoa(n)[0]);
  }

  // ---------- Parsing ----------

  function StartsWith(s: string, p: string): (r: bool) {
    |p| <= |s| && s[..|p|] == p
  }

  /** The inclusive interval a header selects in a body of the given length. */
  function ParseRange(header: string, length: int): (r: Option<(int, int)>)
    ensures r.Some? ==> 0 <= r.value.0 <= r.value.1 < length
  {
    if length <= 0 || !StartsWith(header, PREFIX) then None
    else
      var raw := header[|PREFIX|..];
      if ',' in raw then None
      else
        var spec := TrimSpace(raw);
        var dash := IndexOf(spec, '-');
        if spec == "" || dash == |spec| then None
        else ParseSpec(TrimSpace(spec[..dash]), TrimSpace(spec[dash + 1..]), length)
  }

  function ParseSpec(startStr: string, endStr: string, length: int): (r: Option<(int, int)>)
    requires length > 0
    ensures r.Some? ==> 0 <= r.value.0 <= r.value.1 < length
  {
    if startStr == "" then
      var suffix := Atoi(endStr);
      if suffix.None? || suffix.value <= 0 then None
      else Some((if length - suffix.value < 0 then 0 else length - suffix.value, length - 1))
    else
      var start := Atoi(startStr);
      if start.None? || start.value < 0 || start.value >= length then None
      else if endStr == "" then Some((start.value, length - 1))
      else
        var end := Atoi(endStr);
        if end.None? || end.value < start.value then None
        else Some((start.value, if end.value >= length then length - 1 else end.value))
  }

  // ---------- Printing ----------

  function Print(start: string, end: string): (r: string) {
    PREFIX + (start + "-" + end)
  }

  /** The printed pair splits at its dash. */
  lemma {:induction false} PrintedSplit(start: string, end: string)
    requires AllDigits(start)
    ensures var raw := start + "-" + end;
            && IndexOf(raw, '-') == |start| < |raw| && raw[..|start|] == start && raw[|start| + 1..] == end
  {
    hide IndexOf;
    var raw := start + "-" + end;
    assert raw[|start|] == '-';
    assert forall i :: 0 <= i < |start| ==> raw[i] == start[i] && start[i] != '-';
  }

  lemma {:induction false} PrintedPlain(start: string, end: string)
    requires AllDigits(start) && AllDigits(end)
    ensures var raw := start + "-" + end; NoSpace(raw) && NoSpace(start) && NoSpace(end) && ',' !in raw
  {
    var raw := start + "-" + end;
    forall i | 0 <= i < |raw| ensures IsDigit(raw[i]) || raw[i] == '-' {
      if i < |start| { assert raw[i] == start[i]; }
      if i > |start| { assert raw[i] == end[i - |start| - 1]; }
    }
  }

  /** Parsing a printed pair of digit strings reaches the two numbers unchanged. */
  lemma {:induction false} ParsePrinted(start: string, end: string, length: int)
    requires length > 0 && AllDigits(start) && AllDigits(end)
    ensures ParseRange(Print(start, end), length) == ParseSpec(start, end, length)
  {
    hide IndexOf, TrimSpace, AllDigits, NoSpace, ParseSpec;
    var header, raw := Print(start, end), start + "-" + end;
    assert header[..|PREFIX|] == PREFIX && header[|PREFIX|..] == raw;
    PrintedPlain(start, end);
    PrintedSplit(start, end);
    TrimKeeps(raw);
    TrimKeeps(start);
    TrimKeeps(end);
  }

  function Min(a: int, b: int): (r: int) {
    if a < b then a else b
  }

  lemma {:induction false} NothingToParse(header: string, length: int)
    requires length <= 0
    ensures ParseRange(header, length) == None
  {
  }

  /** Headers that are refused whatever the numbers in them: another unit, several ranges, no dash. */
  lemma {:induction false} RefusedHeaders(header: string, length: int)
    ensures !("bytes=" <= header) ==> ParseRange(header, length) == None
    ensures ',' in header ==> ParseRange(header, length) == None
    ensures '-' !in header ==> ParseRange(header, length) == None
    ensures length <= 0 ==> ParseRange(header, length) == None
  {
    hide IndexOf, TrimSpace, ParseSpec;
    if StartsWith(header, PREFIX) {
      var raw := header[|PREFIX|..];
      assert header == "bytes=" + raw;
      var spec := TrimSpace(raw);
      TrimIsPart(raw, '-');
      var dash := IndexOf(spec, '-');
      assert dash < |spec| ==> spec[dash] in spec;
    }
  }

  lemma {:induction false} TrimIsPart(s: string, c: char)
    ensures c in TrimSpace(s) ==> c in s
  {
    TrimLeftPart(s, c);
    TrimRightPart(TrimLeft(s), c);
  }

  lemma {:induction false} TrimLeftPart(s: string, c: char)
    ensures c in TrimLeft(s) ==> c in s
  {
    if s != "" && IsSpace(s[0]) { TrimLeftPart(s[1..], c); }
  }

  lemma {:induction false} TrimRightPart(s: string, c: char)
    ensures c in TrimRight(s) ==> c in s
  {
    if s != "" && IsSpace(s[|s| - 1]) { TrimRightPart(s[..|s| - 1], c); }
  }

  /** A number is digits with at most one sign in front. */
  lemma {:induction false} AtoiShape(s: string)
    requires Atoi(s).Some?
    ensures var digits := if s != "" && s[0] in "+-" then s[1..] else s;
            digits != "" && AllDigits(digits)
  {
    DigitsAreDigits(if s != "" && (s[0] == '+' || s[0] == '-') then s[1..] else s);
  }

  lemma {:induction false} DigitsAreDigits(s: string)
    requires Digits(s).Some?
    ensures s != "" && AllDigits(s)
  {
    if |s| > 1 {
      DigitsAreDigits(s[..|s| - 1]);
      forall i | 0 <= i < |s| ensures IsDigit(s[i]) {
        if i < |s| - 1 { assert s[..|s| - 1][i] == s[i]; }
      }
    }
  }

  /** Signs: a plus changes nothing, a minus negates. */
  lemma {:induction false} AtoiSigned(n: nat)
    ensures Atoi("+" + Itoa(n)) == if n <= INT_MAX then Some(n) else None
    ensures Atoi("-" + Itoa(n)) == if n <= INT_MAX + 1 then Some(0 - n) else None
  {
    hide Itoa, Digits;
    ItoaDigits(n);
    var plus, minus := "+" + Itoa(n), "-" + Itoa(n);
    assert plus[1..] == Itoa(n) && minus[1..] == Itoa(n);
  }

  /** Blanks around the numbers and the dash change nothing. */
  lemma {:induction false} BlanksIgnored(b1: string, start: string, b2: string, b3: string, end: string, b4: string,
                                         length: int)
    requires Blank(b1) && Blank(b2) && Blank(b3) && Blank(b4) && AllDigits(start) && AllDigits(end)
    requires start != "" && end != ""
    ensures ParseRange(PREFIX + (b1 + (start + b2 + "-" + b3 + end) + b4), length) ==
            ParseRange(Print(start, end), length)
  {
    hide IndexOf, TrimSpace, AllDigits, NoSpace, ParseSpec, Blank;
    var core := start + b2 + "-" + b3 + end;
    var raw := b1 + core + b4;
    var header := PREFIX + raw;
    assert header[..|PREFIX|] == PREFIX && header[|PREFIX|..] == raw;
    if length <= 0 {
      NothingToParse(header, length);
      NothingToParse(Print(start, end), length);
    } else {
      PaddedPlain(b1, start, b2, b3, end, b4);
      PaddedSplit(start, b2, b3, end);
      TrimPadded(b1, core, b4);
      TrimTight(core);
      PrintedPlain(start, end);
      PaddedStart(start, b2);
      PaddedEnd(b3, end);
      ParsePrinted(start, end, length);
    }
  }

  lemma {:induction false} PaddedStart(start: string, b2: string)
    requires NoSpace(start) && Blank(b2)
    ensures TrimSpace(start + b2) == start
  {
    hide TrimSpace;
    TrimPadded("", start, b2);
    assert "" + start + b2 == start + b2;
    TrimKeeps(start);
  }

  lemma {:induction false} PaddedEnd(b3: string, end: string)
    requires NoSpace(end) && Blank(b3)
    ensures TrimSpace(b3 + end) == end
  {
    hide TrimSpace;
    TrimPadded(b3, end, "");
    assert b3 + end + "" == b3 + end;
    TrimKeeps(end);
  }

  lemma {:induction false} TrimTight(s: string)
    requires s != "" ==> !IsSpace(s[0]) && !IsSpace(s[|s| - 1])
    ensures TrimSpace(s) == s
  {
  }

  lemma {:induction false} PaddedSplit(start: string, b2: string, b3: string, end: string)
    requires AllDigits(start) && AllDigits(end) && Blank(b2) && start != "" && end != ""
    ensures var core := start + b2 + "-" + b3 + end;
            && var dash := IndexOf(core, '-');
               && dash == |start + b2| < |core| && core[..dash] == start + b2 && core[dash + 1..] == b3 + end
               && !IsSpace(core[0]) && !IsSpace(core[|core| - 1])
  {
    hide IndexOf;
    var core := start + b2 + "-" + b3 + end;
    assert core[|start + b2|] == '-';
    assert forall i :: 0 <= i < |start| ==> core[i] == start[i] && start[i] != '-';
    assert forall i :: 0 <= i < |b2| ==> core[|start| + i] == b2[i] && IsSpace(b2[i]);
    assert core[|core| - 1] == end[|end| - 1];
  }

  lemma {:induction false} PaddedPlain(b1: string, start: string, b2: string, b3: string, end: string, b4: string)
    requires Blank(b1) && Blank(b2) && Blank(b3) && Blank(b4) && AllDigits(start) && AllDigits(end)
    ensures ',' !in b1 + (start + b2 + "-" + b3 + end) + b4
  {
    assert ',' !in b1 && ',' !in start && ',' !in b2 && ',' !in b3 && ',' !in end && ',' !in b4;
  }

  lemma {:induction false} BoundedSpec(start: string, end: string, a: nat, b: nat, length: int)
    requires 0 < length <= INT_MAX && start != "" && end != ""
    requires Atoi(start) == (if a <= INT_MAX then Some(a) else None) &&
             Atoi(end) == (if b <= INT_MAX then Some(b) else None)
    ensures ParseSpec(start, end, length) ==
            if a < length && a <= b <= INT_MAX then Some((a, Min(b, length - 1))) else None
  {
    hide Atoi;
  }

  lemma {:induction false} OpenSpec(start: string, end: string, a: nat, length: int)
    requires 0 < length <= INT_MAX && start != "" && end == "" &&
             Atoi(start) == (if a <= INT_MAX then Some(a) else None)
    ensures ParseSpec(start, end, length) == if a < length then Some((a, length - 1)) else None
  {
    hide Atoi;
  }

  lemma {:induction false} SuffixSpec(start: string, end: string, k: nat, length: int)
    requires 0 < length <= INT_MAX && start == "" && Atoi(end) == (if k <= INT_MAX then Some(k) else None)
    ensures ParseSpec(start, end, length) ==
            if 0 < k <= INT_MAX then Some((length - Min(k, length), length - 1)) else None
  {
    hide Atoi;
  }

  /** `bytes=a-b` selects a up to b, clamped to the body, exactly when a is inside the body and a <= b fits an int. */
  lemma {:induction false} ParseBounded(a: nat, b: nat, length: int)
    requires length <= INT_MAX
    ensures ParseRange(Print(Itoa(a), Itoa(b)), length) ==
            if a < length && a <= b <= INT_MAX then Some((a, Min(b, length - 1))) else None
  {
    hide Itoa, Atoi, Digits, AllDigits, Print, ParseRange, ParseSpec;
    if length <= 0 {
      NothingToParse(Print(Itoa(a), Itoa(b)), length);
    } else {
      ItoaDigits(a);
      ItoaDigits(b);
      AtoiItoa(a);
      AtoiItoa(b);
      ParsePrinted(Itoa(a), Itoa(b), length);
      BoundedSpec(Itoa(a), Itoa(b), a, b, length);
    }
  }

  /** `bytes=a-` selects a up to the end, exactly when a is inside the body. */
  lemma {:induction false} ParseOpen(a: nat, length: int)
    requires length <= INT_MAX
    ensures ParseRange(Print(Itoa(a), ""), length) == if a < length then Some((a, length - 1)) else None
  {
    assert AllDigits("");
    hide Itoa, Atoi, Digits, AllDigits, Print, ParseRange, ParseSpec;
    if length <= 0 {
      NothingToParse(Print(Itoa(a), ""), length);
    } else {
      ItoaDigits(a);
      AtoiItoa(a);
      ParsePrinted(Itoa(a), "", length);
      OpenSpec(Itoa(a), "", a, length);
    }
  }

  /** `bytes=-k` selects the last k bytes, or the whole body when k exceeds it. */
  lemma {:induction false} ParseSuffix(k: nat, length: int)
    requires length <= INT_MAX
    ensures ParseRange(Print("", Itoa(k)), length) ==
            if length > 0 && 0 < k <= INT_MAX then Some((length - Min(k, length), length - 1)) else None
  {
    assert AllDigits("");
    hide Itoa, Atoi, Digits, AllDigits, Print, ParseRange, ParseSpec;
    if length <= 0 {
      NothingToParse(Print("", Itoa(k)), length);
    } else {
      ItoaDigits(k);
      AtoiItoa(k);
      ParsePrinted("", Itoa(k), length);
      SuffixSpec("", Itoa(k), k, length);
    }
  }

  // ---------- Serving ----------

  datatype Partial = Partial(status: int, contentRange: string, contentLength: string, body: string)

  function Serve(body: string, start: nat, end: nat): (r: Partial)
    requires start <= end < |body|
  {
    Partial(206, "bytes " + Itoa(start) + "-" + Itoa(end) + "/" + Itoa(|body|), Itoa(end - start + 1),
            body[start..end + 1])
  }

  /** The Content-Length of a partial response is the length of what is written. */
  lemma {:induction false} ServedLength(body: string, start: nat, end: nat)
    requires start <= end < |body| <= INT_MAX
    ensures Atoi(Serve(body, start, end).contentLength) == Some(|Serve(body, start, end).body|)
  {
    AtoiItoa(end - start + 1);
  }

  /** The Content-Range of a partial response names the range served, in the form a client could ask for it again,
      and the length of the whole body. */
  lemma {:induction false} ContentRangeNames(body: string, start: nat, end: nat) returns (range: string, total: string)
    requires start <= end < |body| <= INT_MAX
    ensures Serve(body, start, end).status == 206
    ensures Serve(body, start, end).contentRange == "bytes " + range + "/" + total
    ensures ParseRange("bytes=" + range, |body|) == Some((start, end)) && Atoi(total) == Some(|body|)
  {
    hide Itoa, Atoi, ParseRange;
    range, total := Itoa(start) + "-" + Itoa(end), Itoa(|body|);
    AtoiItoa(|body|);
    ParseBounded(start, end, |body|);
    assert "bytes " + Itoa(start) + "-" + Itoa(end) + "/" + Itoa(|body|) == "bytes " + range + "/" + total;
  }

  function Total(lengths: seq<nat>): (r: nat) {
    if lengths == [] then 0 else lengths[0] + Total(lengths[1..])
  }

  /** The body served for a `bytes=a-b` request; a refused request serves nothing. */
  function ServedOne(body: string, first: nat, last: nat): (r: string) {
    var sel := ParseRange(Print(Itoa(first), Itoa(last)), |body|);
    if sel.Some? then Serve(body, sel.value.0, sel.value.1).body else ""
  }

  /** The bodies served for consecutive requests starting at an offset. */
  function ServedFrom(body: string, offset: nat, lengths: seq<nat>): (r: string)
    requires forall i :: 0 <= i < |lengths| ==> lengths[i] >= 1
    decreases |lengths|
  {
    if lengths == [] then ""
    else ServedOne(body, offset, offset + lengths[0] - 1) + ServedFrom(body, offset + lengths[0], lengths[1..])
  }

  lemma {:induction false} ServedOneIsSlice(body: string, first: nat, last: nat)
    requires first <= last < |body| <= INT_MAX
    ensures ServedOne(body, first, last) == body[first..last + 1]
  {
    ParseBounded(first, last, |body|);
  }

  lemma {:induction false} ServedSuffix(body: string, offset: nat, lengths: seq<nat>)
    requires |body| <= INT_MAX && offset + Total(lengths) == |body|
    requires forall i :: 0 <= i < |lengths| ==> lengths[i] >= 1
    ensures ServedFrom(body, offset, lengths) == body[offset..]
    decreases |lengths|
  {
    hide ServedOne;
    if lengths != [] {
      var n := lengths[0];
      ServedOneIsSlice(body, offset, offset + n - 1);
      ServedSuffix(body, offset + n, lengths[1..]);
      SliceThenRest(body, offset, n);
    }
  }

  lemma {:induction false} SliceThenRest(body: string, offset: nat, n: nat)
    requires offset + n <= |body|
    ensures body[offset..offset + n] + body[offset + n..] == body[offset..]
  {
  }

  /** For any partition of a body into consecutive non-empty ranges, the served partial bodies concatenate to the
      body. */
  lemma {:induction false} PartitionReassembles(body: string, lengths: seq<nat>)
    requires |body| <= INT_MAX && Total(lengths) == |body|
    requires forall i :: 0 <= i < |lengths| ==> lengths[i] >= 1
    ensures ServedFrom(body, 0, lengths) == body
  {
    ServedSuffix(body, 0, lengths);
  }
}
