/** Wire format shared by both channel implementations: the text of the read
    file is split on whitespace (Python's `str.split()` with no separator) and
    each token is converted with `int(token, 10)`. */
module Wire {

  datatype Option<T> = None | Some(value: T)

  /** State of the read channel's file at the moment it is opened. The text is
      what `open(file).read()` returns. */
  datatype FileState = Missing | Present(text: string)

  /** What happens when a channel file is opened for writing: it opens, its
      directory does not exist (FileNotFoundError), or another OSError. */
  datatype Sink = Opens | NoSuchDirectory | OtherOsError

  /** The characters Python's `str.isspace` accepts, which are the separators of
      `str.split()` without arguments. */
  predicate IsSpace(c: char) {
    var n := c as int;
    (9 <= n <= 13) || (28 <= n <= 32) || n == 0x85 || n == 0xA0 || n == 0x1680
    || (0x2000 <= n <= 0x200A) || n == 0x2028 || n == 0x2029 || n == 0x202F
    || n == 0x205F || n == 0x3000
  }

  predicate IsToken(t: string) {
    t != [] && forall i :: 0 <= i < |t| ==> !IsSpace(t[i])
  }

  /** Length of the longest prefix of `s` without whitespace. */
  function TokenLength(s: string): (n: nat)
    ensures n <= |s|
  {
    if s == [] || IsSpace(s[0]) then 0 else 1 + TokenLength(s[1..])
  }

  /** The prefix `TokenLength` measures is a maximal run without whitespace. */
  lemma {:induction false} TokenLengthMaximal(s: string)
    ensures forall i :: 0 <= i < TokenLength(s) ==> !IsSpace(s[i])
    ensures TokenLength(s) < |s| ==> IsSpace(s[TokenLength(s)])
  {
    if s != [] && !IsSpace(s[0]) {
      TokenLengthMaximal(s[1..]);
    }
  }

  /** `s.split()`: the maximal runs of non-whitespace characters, in order. */
  function Split(s: string): (ts: seq<string>)
    decreases |s|
  {
    if s == [] then []
    else if IsSpace(s[0]) then Split(s[1..])
    else
      var n := TokenLength(s);
      [s[..n]] + Split(s[n..])
  }

  /** Every piece `Split` returns is a token: non-empty, without whitespace. */
  lemma {:induction false} SplitTokens(s: string)
    ensures forall i :: 0 <= i < |Split(s)| ==> IsToken(Split(s)[i])
    decreases |s|
  {
    if s != [] {
      if IsSpace(s[0]) {
        SplitTokens(s[1..]);
      } else {
        var n := TokenLength(s);
        TokenLengthMaximal(s);
        SplitTokens(s[n..]);
        assert IsToken(s[..n]);
      }
    }
  }

  /** Tokens separated by single spaces: the inverse of `Split`. */
  function Join(ts: seq<string>): string {
    if ts == [] then ""
    else if |ts| == 1 then ts[0]
    else ts[0] + " " + Join(ts[1..])
  }

  lemma {:induction false} TokenLengthOfToken(t: string, rest: string)
    requires IsToken(t)
    requires rest == [] || IsSpace(rest[0])
    ensures TokenLength(t + rest) == |t|
  {
    if |t| == 1 {
      assert (t + rest)[1..] == rest;
    } else {
      assert (t + rest)[1..] == t[1..] + rest;
      TokenLengthOfToken(t[1..], rest);
    }
  }

  lemma SplitTokenFirst(t: string, rest: string)
    requires IsToken(t)
    requires rest == [] || IsSpace(rest[0])
    ensures Split(t + rest) == [t] + Split(rest)
  {
    TokenLengthOfToken(t, rest);
    assert (t + rest)[..|t|] == t;
    assert (t + rest)[|t|..] == rest;
  }

  /** Splitting the space-joined tokens gives the tokens back. */
  lemma {:induction false} SplitJoin(ts: seq<string>)
    requires forall i :: 0 <= i < |ts| ==> IsToken(ts[i])
    ensures Split(Join(ts)) == ts
  {
    if |ts| == 1 {
      SplitTokenFirst(ts[0], "");
      assert ts[0] + "" == ts[0];
    } else if |ts| > 1 {
      var rest := " " + Join(ts[1..]);
      assert Join(ts) == ts[0] + rest;
      SplitTokenFirst(ts[0], rest);
      assert Split(rest) == Split(Join(ts[1..])) by {
        assert rest[1..] == Join(ts[1..]);
      }
      SplitJoin(ts[1..]);
    }
  }

  /** Leading whitespace never changes the tokens. */
  lemma {:induction false} SplitSkipsLeadingSpace(ws: string, s: string)
    requires forall i :: 0 <= i < |ws| ==> IsSpace(ws[i])
    ensures Split(ws + s) == Split(s)
  {
    if ws == [] {
      assert ws + s == s;
    } else {
      assert IsSpace((ws + s)[0]);
      assert (ws + s)[1..] == ws[1..] + s;
      assert Split(ws + s) == Split(ws[1..] + s);
      SplitSkipsLeadingSpace(ws[1..], s);
    }
  }

  // ---- int(token, 10) ----

  predicate IsDigit(c: char) { '0' <= c <= '9' }

  function DigitValue(c: char): (d: int)
    requires IsDigit(c)
    ensures 0 <= d < 10
  {
    (c as int) - ('0' as int)
  }

  /** The digit part Python's `int(_, 10)` accepts: ASCII digits, an underscore
      only between two digits. */
  predicate IsDigitPart(s: string) {
    |s| > 0 && IsDigit(s[0]) && IsDigit(s[|s| - 1])
    && (forall i :: 0 <= i < |s| ==> IsDigit(s[i]) || s[i] == '_')
    && (forall i :: 0 < i < |s| && s[i] == '_' ==> s[i - 1] != '_')
  }

  /** Decimal value of the digits of `s`, underscores skipped. */
  function GroupValue(s: string): nat
    requires forall i :: 0 <= i < |s| ==> IsDigit(s[i]) || s[i] == '_'
  {
    if s == [] then 0
    else if s[|s| - 1] == '_' then GroupValue(s[..|s| - 1])
    else GroupValue(s[..|s| - 1]) * 10 + DigitValue(s[|s| - 1])
  }

  /** `int(t, 10)` on a token without surrounding whitespace; `None` is the
      ValueError. Only ASCII digits are modelled. */
  function ParseInt(t: string): (r: Option<int>)
  {
    if |t| > 0 && (t[0] == '-' || t[0] == '+') then
      if IsDigitPart(t[1..]) then
        var m: int := GroupValue(t[1..]);
        Some(if t[0] == '-' then -m else m)
      else None
    else if IsDigitPart(t) then Some(GroupValue(t))
    else None
  }

  /** `int(t, 10)` accepts only an optional sign, then digits and
      underscores; an unsigned number is never negative and a `-` one never
      positive. */
  lemma ParseIntAccepts(t: string)
    ensures ParseInt(t).Some? ==>
              |t| > 0 && forall i :: 0 <= i < |t| ==> IsDigit(t[i]) || t[i] == '_' || (i == 0 && (t[i] == '-' || t[i] == '+'))
    ensures ParseInt(t).Some? && IsDigit(t[0]) ==> ParseInt(t).value >= 0
    ensures ParseInt(t).Some? && t[0] == '-' ==> ParseInt(t).value <= 0
  {
    if ParseInt(t).Some? && |t| > 0 && (t[0] == '-' || t[0] == '+') {
      assert forall i :: 1 <= i < |t| ==> t[1..][i - 1] == t[i];
    }
  }

  function DigitChar(d: nat): (c: char)
    requires d < 10
    ensures IsDigit(c) && DigitValue(c) == d
  {
    (('0' as int) + d) as char
  }

  /** Decimal digits of a natural number, most significant first. */
  function NatDigits(n: nat): (s: string)
    ensures |s| > 0
    ensures forall i :: 0 <= i < |s| ==> IsDigit(s[i])
  {
    if n < 10 then [DigitChar(n)] else NatDigits(n / 10) + [DigitChar(n % 10)]
  }

  /** `str(n)` for an integer. */
  function Show(n: int): string {
    if n < 0 then "-" + NatDigits(-n) else NatDigits(n)
  }

  lemma {:induction false} NatDigitsValue(n: nat)
    ensures GroupValue(NatDigits(n)) == n
  {
    if n >= 10 {
      var s := NatDigits(n);
      assert s[..|s| - 1] == NatDigits(n / 10);
      NatDigitsValue(n / 10);
    }
  }

  /** `int(str(n), 10) == n`. */
  lemma ShowParses(n: int)
    ensures ParseInt(Show(n)) == Some(n)
  {
    var s := Show(n);
    if n < 0 {
      var d := NatDigits(-n);
      assert s[0] == '-' && s[1..] == d;
      DigitsArePart(-n);
      NatDigitsValue(-n);
    } else {
      DigitsArePart(n);
      NatDigitsValue(n);
      assert IsDigit(s[0]);
    }
  }

  /** The decimal digits of a number form a digit group without underscores. */
  lemma DigitsArePart(m: nat)
    ensures IsDigitPart(NatDigits(m))
  {
    var s := NatDigits(m);
    assert IsDigit(s[0]) && IsDigit(s[|s| - 1]);
  }

  lemma ShowIsToken(n: int)
    ensures IsToken(Show(n))
  {
    var s := Show(n);
    forall i | 0 <= i < |s| ensures !IsSpace(s[i]) {
      if n < 0 && i > 0 {
        assert s[i] == NatDigits(-n)[i - 1];
      }
    }
  }

  /** A token holding a character that is neither a decimal digit, a sign nor
      an underscore (a hexadecimal letter, a decimal point) is refused. */
  lemma ForeignCharRefused(t: string, i: nat)
    requires i < |t|
    requires !IsDigit(t[i]) && t[i] != '_' && t[i] != '-' && t[i] != '+'
    ensures ParseInt(t) == None
  {
  }

  // ---- three tokens ----

  datatype Triple = Triple(k: int, p: int, q: int)

  /** `[int(i, 10) for i in ts]`: `None` as soon as one token is refused. */
  function ParseAll(ts: seq<string>): (r: Option<seq<int>>)
  {
    if ts == [] then Some([])
    else
      match (ParseInt(ts[0]), ParseAll(ts[1..]))
      case (Some(x), Some(xs)) => Some([x] + xs)
      case _ => None
  }

  /** The list conversion succeeds exactly when every token converts, and
      then holds the converted tokens in order. */
  lemma {:induction false} ParseAllEach(ts: seq<string>)
    ensures ParseAll(ts).Some? <==> forall i :: 0 <= i < |ts| ==> ParseInt(ts[i]).Some?
    ensures ParseAll(ts).Some? ==>
              |ParseAll(ts).value| == |ts| && forall i :: 0 <= i < |ts| ==> Some(ParseAll(ts).value[i]) == ParseInt(ts[i])
  {
    if ts != [] {
      ParseAllEach(ts[1..]);
      assert forall i :: 1 <= i < |ts| ==> ts[1..][i - 1] == ts[i];
    }
  }

  /** `[k, p, q] = [int(i, 10) for i in text.split()]`; `None` is the
      ValueError of a refused token or of a token count other than three. */
  function ParseTriple(text: string): (r: Option<Triple>)
  {
    match ParseAll(Split(text))
    case Some(xs) => if |xs| == 3 then Some(Triple(xs[0], xs[1], xs[2])) else None
    case None => None
  }

  /** A text is read exactly when it splits into three tokens that each
      convert, and the triple holds them in order. */
  lemma ParseTripleTokens(text: string)
    ensures ParseTriple(text).Some? <==> |Split(text)| == 3 && forall i :: 0 <= i < 3 ==> ParseInt(Split(text)[i]).Some?
    ensures ParseTriple(text).Some? ==>
              ParseInt(Split(text)[0]) == Some(ParseTriple(text).value.k)
              && ParseInt(Split(text)[1]) == Some(ParseTriple(text).value.p)
              && ParseInt(Split(text)[2]) == Some(ParseTriple(text).value.q)
  {
    ParseAllEach(Split(text));
  }

  /** The text an external writer produces for one reading. */
  function Render(t: Triple): string {
    Join([Show(t.k), Show(t.p), Show(t.q)])
  }

  /** Every rendered triple is read back unchanged. */
  lemma RenderParses(t: Triple)
    ensures ParseTriple(Render(t)) == Some(t)
  {
    var ts := [Show(t.k), Show(t.p), Show(t.q)];
    ShowIsToken(t.k);
    ShowIsToken(t.p);
    ShowIsToken(t.q);
    SplitJoin(ts);
    ShowParses(t.k);
    ShowParses(t.p);
    ShowParses(t.q);
    ParseTripleTokens(Render(t));
  }

  /** A read that opens the file and finds exactly three integer tokens. */
  predicate Readable(f: FileState) {
    f.Present? && ParseTriple(f.text).Some?
  }

  /** Counter of a read outcome: the first token on success, `kdef` otherwise. */
  function Counter(f: FileState, kdef: int): int {
    if Readable(f) then ParseTriple(f.text).value.k else kdef
  }

  function Counters(fs: seq<FileState>, kdef: int): (cs: seq<int>)
    ensures |cs| == |fs| && forall i :: 0 <= i < |fs| ==> cs[i] == Counter(fs[i], kdef)
  {
    seq(|fs|, i requires 0 <= i < |fs| => Counter(fs[i], kdef))
  }

  /** Index of the first element equal to `target`, or `|cs|` when none is. */
  function FirstIndex(cs: seq<int>, target: int): (n: nat)
    ensures n <= |cs|
  {
    if cs == [] then 0
    else if cs[0] == target then 0
    else 1 + FirstIndex(cs[1..], target)
  }

  /** `FirstIndex` finds the first occurrence: every element before it
      differs from `target`, and the element at it is `target`. */
  lemma {:induction false} FirstIndexFinds(cs: seq<int>, target: int)
    ensures forall j :: 0 <= j < FirstIndex(cs, target) ==> cs[j] != target
    ensures FirstIndex(cs, target) < |cs| ==> cs[FirstIndex(cs, target)] == target
  {
    if cs != [] && cs[0] != target {
      FirstIndexFinds(cs[1..], target);
    }
  }

  lemma FirstIndexAt(cs: seq<int>, target: int, i: nat)
    requires i < |cs| && cs[i] == target
    requires forall j :: 0 <= j < i ==> cs[j] != target
    ensures FirstIndex(cs, target) == i
  {
    FirstIndexFinds(cs, target);
  }

  lemma FirstIndexAtLeast(cs: seq<int>, target: int, i: nat)
    requires i <= |cs|
    requires forall j :: 0 <= j < i ==> cs[j] != target
    ensures FirstIndex(cs, target) >= i
  {
    FirstIndexFinds(cs, target);
  }
}
