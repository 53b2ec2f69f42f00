/** The string operations the monitor relies on, with the meaning the Go standard library gives them. */
module Text {
  import opened Prelude

  // ---- White space ----

  /** Unicode white space. */
  predicate IsSpace(c: char) {
    c == ' ' || '\t' <= c <= '\r' || c == '\U{85}' || c == '\U{A0}' || c == '\U{1680}' ||
    '\U{2000}' <= c <= '\U{200A}' || c == '\U{2028}' || c == '\U{2029}' || c == '\U{202F}' || c == '\U{205F}' ||
    c == '\U{3000}'
  }

  predicate IsReturn(c: char) {
    c == '\r'
  }

  function TrimLeft(s: string, cut: char -> bool): string {
    if s != [] && cut(s[0]) then TrimLeft(s[1..], cut) else s
  }

  function TrimRight(s: string, cut: char -> bool): string {
    if s != [] && cut(s[|s| - 1]) then TrimRight(s[..|s| - 1], cut) else s
  }

  function TrimSpace(s: string): string {
    TrimRight(TrimLeft(s, IsSpace), IsSpace)
  }

  lemma {:induction false} TrimRightIsPrefix(s: string, cut: char -> bool)
    ensures TrimRight(s, cut) <= s
    ensures TrimRight(s, cut) == "" || !cut(TrimRight(s, cut)[|TrimRight(s, cut)| - 1])
  {
    if s != [] && cut(s[|s| - 1]) {
      TrimRightIsPrefix(s[..|s| - 1], cut);
    }
  }

  /** Trimming stops at the last character that stays. */
  lemma {:induction false} TrimRightAfter(a: string, c: char, b: string, cut: char -> bool)
    requires !cut(c)
    ensures TrimRight(a + [c] + b, cut) == a + [c] + TrimRight(b, cut)
  {
    var s := a + [c] + b;
    if b != [] && cut(b[|b| - 1]) {
      assert s[..|s| - 1] == a + [c] + b[..|b| - 1];
      TrimRightAfter(a, c, b[..|b| - 1], cut);
    }
  }

  lemma {:induction false} TrimRightCons(c: char, s: string, cut: char -> bool)
    ensures TrimRight([c] + s, cut) ==
              if TrimRight(s, cut) == "" && cut(c) then "" else [c] + TrimRight(s, cut)
  {
    if s == [] {
      assert [c] + s == [c] && [c][..0] == "";
    } else if cut(s[|s| - 1]) {
      assert ([c] + s)[..|s|] == [c] + s[..|s| - 1];
      TrimRightCons(c, s[..|s| - 1], cut);
    }
  }

  lemma {:induction false} TrimLeftIsSuffix(s: string, cut: char -> bool)
    ensures |TrimLeft(s, cut)| <= |s| && TrimLeft(s, cut) == s[|s| - |TrimLeft(s, cut)|..]
  {
    if s != [] && cut(s[0]) {
      TrimLeftIsSuffix(s[1..], cut);
    }
  }

  /** Returns at the end are white space, so trimming them first makes no difference. */
  lemma {:induction false} TrimmedReturns(s: string)
    ensures TrimSpace(TrimRight(s, IsReturn)) == TrimSpace(s)
  {
    if s != [] && IsReturn(s[|s| - 1]) {
      TrimmedReturns(s[..|s| - 1]);
      TrimmedSpaceAtEnd(s);
    }
  }

  lemma {:induction false} TrimmedSpaceAtEnd(s: string)
    requires s != "" && IsSpace(s[|s| - 1])
    ensures TrimSpace(s[..|s| - 1]) == TrimSpace(s)
  {
    if |s| > 1 && IsSpace(s[0]) {
      assert s[1..][..|s| - 2] == s[..|s| - 1][1..];
      TrimmedSpaceAtEnd(s[1..]);
    } else if |s| == 1 {
      assert s[1..] == "" && s[..0] == "";
    }
  }

  // ---- Lines ----

  /** Windows line ends become plain newlines. */
  function ReplaceReturns(s: string): string {
    if |s| >= 2 && s[0] == '\r' && s[1] == '\n' then "\n" + ReplaceReturns(s[2..])
    else if s == "" then ""
    else [s[0]] + ReplaceReturns(s[1..])
  }

  function SplitLines(s: string): (r: seq<string>)
    ensures |r| > 0
  {
    if s == "" then [""] else
      var rest := SplitLines(s[1..]);
      if s[0] == '\n' then [""] + rest else [[s[0]] + rest[0]] + rest[1..]
  }

  function JoinLines(lines: seq<string>): string {
    if lines == [] then "" else if |lines| == 1 then lines[0] else lines[0] + "\n" + JoinLines(lines[1..])
  }

  lemma {:induction false} SplitAfterLine(a: string, s: string)
    requires '\n' !in a
    ensures SplitLines(a + "\n" + s) == [a] + SplitLines(s)
  {
    if a == "" {
      assert a + "\n" + s == "\n" + s && ("\n" + s)[1..] == s;
    } else {
      assert (a + "\n" + s)[1..] == a[1..] + "\n" + s;
      SplitAfterLine(a[1..], s);
      assert [a[0]] + a[1..] == a;
    }
  }

  lemma {:induction false} SplitOneLine(a: string)
    requires '\n' !in a
    ensures SplitLines(a) == [a]
  {
    if a != "" {
      SplitOneLine(a[1..]);
      assert [a[0]] + a[1..] == a;
    }
  }

  /** Splitting undoes joining. */
  lemma {:induction false} SplitUndoesJoin(lines: seq<string>)
    requires lines != [] && forall i :: 0 <= i < |lines| ==> '\n' !in lines[i]
    ensures SplitLines(JoinLines(lines)) == lines
  {
    if |lines| == 1 {
      SplitOneLine(lines[0]);
    } else {
      SplitUndoesJoin(lines[1..]);
      SplitAfterLine(lines[0], JoinLines(lines[1..]));
    }
  }

  function WithoutReturns(lines: seq<string>): seq<string> {
    seq(|lines|, i requires 0 <= i < |lines| => TrimRight(lines[i], IsReturn))
  }

  /** Replacing Windows line ends changes lines only by returns at their ends. */
  lemma {:induction false} ReplacingReturnsKeepsLines(s: string)
    ensures WithoutReturns(SplitLines(ReplaceReturns(s))) == WithoutReturns(SplitLines(s))
    decreases |s|
  {
    if |s| >= 2 && s[0] == '\r' && s[1] == '\n' {
      ReplacingReturnsKeepsLines(s[2..]);
      assert s[1..][1..] == s[2..];
      assert SplitLines(s[1..]) == [""] + SplitLines(s[2..]);
      assert SplitLines(s[1..])[1..] == SplitLines(s[2..]) && [s[0]] + "" == "\r";
      assert SplitLines(s) == ["\r"] + SplitLines(s[2..]);
      assert TrimRight("\r", IsReturn) == TrimRight("", IsReturn) == "";
      var t := "\n" + ReplaceReturns(s[2..]);
      assert t[1..] == ReplaceReturns(s[2..]);
      assert SplitLines(t) == [""] + SplitLines(ReplaceReturns(s[2..]));
      ReturnsOfCons("\r", SplitLines(s[2..]));
      ReturnsOfCons("", SplitLines(ReplaceReturns(s[2..])));
    } else if s != "" {
      ReplacingReturnsKeepsLines(s[1..]);
      var a, b := SplitLines(ReplaceReturns(s[1..])), SplitLines(s[1..]);
      assert WithoutReturns(a)[0] == WithoutReturns(b)[0];
      assert ([s[0]] + ReplaceReturns(s[1..]))[1..] == ReplaceReturns(s[1..]);
      TrimRightCons(s[0], a[0], IsReturn);
      TrimRightCons(s[0], b[0], IsReturn);
      SameTails(a, b, [s[0]] + a[0], [s[0]] + b[0]);
      ReturnsOfCons("", a);
      ReturnsOfCons("", b);
    }
  }

  lemma {:induction false} ReturnsOfCons(line: string, lines: seq<string>)
    ensures WithoutReturns([line] + lines) == [TrimRight(line, IsReturn)] + WithoutReturns(lines)
  {
  }

  lemma {:induction false} SameTails(a: seq<string>, b: seq<string>, x: string, y: string)
    requires a != [] && b != [] && WithoutReturns(a) == WithoutReturns(b)
    requires TrimRight(x, IsReturn) == TrimRight(y, IsReturn)
    ensures WithoutReturns([x] + a[1..]) == WithoutReturns([y] + b[1..])
  {
    assert |a| == |b|;
    forall i | 0 <= i < |a| - 1 ensures TrimRight(a[1..][i], IsReturn) == TrimRight(b[1..][i], IsReturn) {
      assert WithoutReturns(a)[i + 1] == WithoutReturns(b)[i + 1];
    }
  }

  // ---- Order ----

  /** Strings compare character by character, and a prefix comes first. */
  predicate Precedes(a: string, b: string) {
    b != "" && (a == "" || a[0] < b[0] || (a[0] == b[0] && Precedes(a[1..], b[1..])))
  }

  /** It is a strict total order. */
  lemma {:induction false} PrecedesOrders(a: string, b: string)
    ensures Precedes(a, b) ==> !Precedes(b, a)
    ensures !Precedes(a, b) && !Precedes(b, a) ==> a == b
    ensures !Precedes(a, a)
  {
    if a != "" {
      if b != "" {
        PrecedesOrders(a[1..], b[1..]);
        assert a == [a[0]] + a[1..] && b == [b[0]] + b[1..];
      } else {
        PrecedesOrders(a[1..], a[1..]);
      }
    }
  }

  lemma {:induction false} PrecedesComposes(a: string, b: string, c: string)
    requires Precedes(a, b) && Precedes(b, c)
    ensures Precedes(a, c)
  {
    if a != "" && a[0] == b[0] == c[0] {
      PrecedesComposes(a[1..], b[1..], c[1..]);
    }
  }

  lemma {:induction false} NotAfterComposes(a: string, b: string, c: string)
    requires !Precedes(b, a) && !Precedes(c, b)
    ensures !Precedes(c, a)
  {
    PrecedesOrders(a, b);
    if Precedes(c, a) && Precedes(a, b) {
      PrecedesComposes(c, a, b);
    }
  }

  // ---- Words ----

  /** Where a character first occurs, or the length of the string. */
  function IndexOf(s: string, c: char): (i: nat)
    ensures i <= |s| && (i < |s| ==> s[i] == c) && c !in s[..i]
  {
    if s == "" || s[0] == c then 0 else 1 + IndexOf(s[1..], c)
  }

  lemma {:induction false} IndexAfter(a: string, c: char, b: string)
    requires c !in a
    ensures IndexOf(a + [c] + b, c) == |a|
  {
    if a != "" {
      assert (a + [c] + b)[1..] == a[1..] + [c] + b;
      IndexAfter(a[1..], c, b);
    }
  }

  function FirstWordOf(s: string): string {
    if s == "" || IsSpace(s[0]) then "" else [s[0]] + FirstWordOf(s[1..])
  }

  /** The first of the words separated by white space. */
  function FirstField(s: string): string {
    FirstWordOf(TrimLeft(s, IsSpace))
  }

  lemma {:induction false} FirstWordStops(a: string, c: char, b: string)
    requires IsSpace(c) && forall i :: 0 <= i < |a| ==> !IsSpace(a[i])
    ensures FirstWordOf(a + [c] + b) == a
  {
    if a != "" {
      assert (a + [c] + b)[1..] == a[1..] + [c] + b;
      FirstWordStops(a[1..], c, b);
    }
  }

  function TrimPrefix(s: string, prefix: string): string {
    if prefix <= s then s[|prefix|..] else s
  }

  // ---- Quoting ----

  function Escaped(c: char): string {
    if c == '"' then "\\\"" else if c == '\\' then "\\\\" else if c == '\n' then "\\n"
    else if c == '\r' then "\\r" else if c == '\t' then "\\t" else [c]
  }

  function EscapeAll(s: string): string {
    if s == "" then "" else Escaped(s[0]) + EscapeAll(s[1..])
  }

  /** A text in double quotes, with quotes, backslashes, line ends and tabs inside escaped. */
  function Quote(s: string): string {
    "\"" + EscapeAll(s) + "\""
  }

  predicate IsPlain(c: char) {
    c != '"' && c != '\\' && c != '\n' && c != '\r' && c != '\t'
  }

  /** A text without any of these stands between the quotes as it is. */
  lemma {:induction false} PlainIsQuotedAsIs(s: string)
    requires forall i :: 0 <= i < |s| ==> IsPlain(s[i])
    ensures Quote(s) == "\"" + s + "\""
  {
    if s != "" {
      PlainIsQuotedAsIs(s[1..]);
      assert Quote(s[1..])[1..|EscapeAll(s[1..])| + 1] == EscapeAll(s[1..]);
      assert ("\"" + s[1..] + "\"")[1..|s|] == s[1..];
      assert [s[0]] + s[1..] == s;
    }
  }

  // ---- Integers ----

  const INT64_MIN := -0x8000_0000_0000_0000
  const INT64_MAX := 0x7fff_ffff_ffff_ffff

  predicate IsDigit(c: char) {
    '0' <= c <= '9'
  }

  predicate AllDigits(s: string) {
    forall i :: 0 <= i < |s| ==> IsDigit(s[i])
  }

  function Value(s: string): nat
    requires AllDigits(s)
  {
    if s == "" then 0 else 10 * Value(s[..|s| - 1]) + (s[|s| - 1] as int - '0' as int)
  }

  function ParseInt64(s: string): Option<int> {
    if s == "" then None
    else
      var body := if s[0] == '-' || s[0] == '+' then s[1..] else s;
      if body == "" || !AllDigits(body) then None
      else
        var n: int := if s[0] == '-' then 0 - Value(body) else Value(body);
        if INT64_MIN <= n <= INT64_MAX then Some(n) else None
  }

  function Digits(n: nat): (s: string)
    ensures s != "" && AllDigits(s)
  {
    if n < 10 then [('0' as int + n) as char] else Digits(n / 10) + [('0' as int + n % 10) as char]
  }

  function FormatInt(n: int): string {
    if n < 0 then "-" + Digits(-n) else Digits(n)
  }

  lemma {:induction false} ValueOfDigits(n: nat)
    ensures Value(Digits(n)) == n
  {
    if n >= 10 {
      ValueOfDigits(n / 10);
      var s := Digits(n);
      assert s[..|s| - 1] == Digits(n / 10);
    } else {
      assert Digits(n)[..0] == "";
    }
  }

  /** Reading back a printed number gives the number, exactly within 64 bits. */
  lemma {:induction false} ParseUndoesFormat(n: int)
    ensures ParseInt64(FormatInt(n)) == if INT64_MIN <= n <= INT64_MAX then Some(n) else None
  {
    if n < 0 {
      ValueOfDigits(-n);
      assert FormatInt(n)[1..] == Digits(-n);
    } else {
      ValueOfDigits(n);
      assert IsDigit(Digits(n)[0]);
    }
  }

  lemma {:induction false} FormatHasNoSpace(n: int)
    ensures FormatInt(n) != ""
    ensures forall i :: 0 <= i < |FormatInt(n)| ==> !IsSpace(FormatInt(n)[i])
  {
    var s := FormatInt(n);
    forall i | 0 <= i < |s| ensures !IsSpace(s[i]) {
      assert s[i] == '-' || IsDigit(s[i]);
    }
  }
}
