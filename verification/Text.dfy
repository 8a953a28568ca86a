/**
 String operations shared by the models: JavaScript's `trim`, ASCII case mapping,
 `join` and decimal numerals.
 */
module Text {

  /** ECMAScript white space and line terminators: what `String.prototype.trim` strips. */
  predicate IsSpace(c: char) {
    || '\t' <= c <= '\r'
    || c == ' '
    || c == '\U{00A0}'
    || c == '\U{1680}'
    || '\U{2000}' <= c <= '\U{200A}'
    || c == '\U{2028}'
    || c == '\U{2029}'
    || c == '\U{202F}'
    || c == '\U{205F}'
    || c == '\U{3000}'
    || c == '\U{FEFF}'
  }

  predicate Blank(s: string) {
    forall i :: 0 <= i < |s| ==> IsSpace(s[i])
  }

  function TrimStart(s: string): string {
    if s != "" && IsSpace(s[0]) then TrimStart(s[1..]) else s
  }

  function TrimEnd(s: string): string {
    if s != "" && IsSpace(s[|s| - 1]) then TrimEnd(s[..|s| - 1]) else s
  }

  function Trim(s: string): string {
    TrimEnd(TrimStart(s))
  }

  /** A string that neither starts nor ends with white space. */
  predicate Trimmed(s: string) {
    s != "" ==> !IsSpace(s[0]) && !IsSpace(s[|s| - 1])
  }

  lemma {:induction false} TrimEndSplit(s: string) returns (tail: string)
    ensures s == TrimEnd(s) + tail && Blank(tail)
    ensures TrimEnd(s) != "" ==> !IsSpace(TrimEnd(s)[|TrimEnd(s)| - 1])
  {
    if s != "" && IsSpace(s[|s| - 1]) {
      var shorter := TrimEndSplit(s[..|s| - 1]);
      tail := shorter + [s[|s| - 1]];
      assert s == s[..|s| - 1] + [s[|s| - 1]];
    } else {
      tail := "";
    }
  }

  lemma {:induction false} TrimStartSplit(s: string) returns (head: string)
    ensures s == head + TrimStart(s) && Blank(head)
    ensures TrimStart(s) != "" ==> !IsSpace(TrimStart(s)[0])
  {
    if s != "" && IsSpace(s[0]) {
      var shorter := TrimStartSplit(s[1..]);
      head := [s[0]] + shorter;
      assert s == [s[0]] + s[1..];
    } else {
      head := "";
    }
  }

  /** Trimming strips white space only, and all of it at both ends. */
  lemma TrimSplit(s: string) returns (head: string, tail: string)
    ensures s == head + Trim(s) + tail && Blank(head) && Blank(tail)
    ensures Trimmed(Trim(s))
  {
    head := TrimStartSplit(s);
    tail := TrimEndSplit(TrimStart(s));
    assert s == head + (Trim(s) + tail) == head + Trim(s) + tail;
    if Trim(s) != "" {
      assert TrimStart(s)[0] == Trim(s)[0];
    }
  }

  /** A string that starts with a visible character keeps it. */
  lemma TrimKeepsFirst(s: string)
    requires s != "" && !IsSpace(s[0])
    ensures Trim(s) != "" && Trim(s)[0] == s[0]
  {
    var tail := TrimEndSplit(s);
    assert TrimEnd(s) == "" ==> s == tail;
  }

  lemma TrimIdentity(s: string)
    ensures Trim(s) == s <==> Trimmed(s)
  {
    var _, _ := TrimSplit(s);
  }

  /** Trailing white space does not change what trimming leaves. */
  lemma {:induction false} TrimEndPad(s: string, tail: string)
    requires Blank(tail)
    ensures TrimEnd(s + tail) == TrimEnd(s)
  {
    if tail == "" {
      assert s + tail == s;
    } else {
      var init := tail[..|tail| - 1];
      assert (s + tail)[..|s + tail| - 1] == s + init;
      TrimEndPad(s, init);
    }
  }

  lemma {:induction false} TrimStartPad(head: string, s: string)
    requires Blank(head)
    ensures TrimStart(head + s) == TrimStart(s)
  {
    if head == "" {
      assert head + s == s;
    } else {
      assert (head + s)[1..] == head[1..] + s;
      TrimStartPad(head[1..], s);
    }
  }

  lemma {:induction false} TrimPadEnd(s: string, tail: string)
    requires Blank(tail)
    ensures Trim(s + tail) == Trim(s)
  {
    if s == "" {
      assert s + tail == tail + "";
      TrimStartPad(tail, "");
    } else if IsSpace(s[0]) {
      assert (s + tail)[1..] == s[1..] + tail;
      TrimPadEnd(s[1..], tail);
    } else {
      TrimEndPad(s, tail);
    }
  }

  // ---------- case mapping on ASCII letters ----------

  function UpperChar(c: char): char {
    if 'a' <= c <= 'z' then c - 'a' + 'A' else c
  }

  function LowerChar(c: char): char {
    if 'A' <= c <= 'Z' then c - 'A' + 'a' else c
  }

  function Upper(s: string): string {
    seq(|s|, i requires 0 <= i < |s| => UpperChar(s[i]))
  }

  function Lower(s: string): string {
    seq(|s|, i requires 0 <= i < |s| => LowerChar(s[i]))
  }

  predicate IsUpper(s: string) {
    forall i :: 0 <= i < |s| ==> !('a' <= s[i] <= 'z')
  }

  predicate IsLower(s: string) {
    forall i :: 0 <= i < |s| ==> !('A' <= s[i] <= 'Z')
  }

  lemma UpperIdentity(s: string)
    ensures Upper(s) == s <==> IsUpper(s)
    ensures IsUpper(Upper(s))
  {
    if Upper(s) == s {
      assert forall i :: 0 <= i < |s| ==> Upper(s)[i] == UpperChar(s[i]);
    }
  }

  lemma LowerIdentity(s: string)
    ensures Lower(s) == s <==> IsLower(s)
    ensures IsLower(Lower(s))
  {
    if Lower(s) == s {
      assert forall i :: 0 <= i < |s| ==> Lower(s)[i] == LowerChar(s[i]);
    }
  }

  /**
   Mapping changes exactly the letters of the other case, keeps their order, and makes them letters of its own; with
   as many letters in either case each has its own counterpart.
   */
  lemma CasesMean(s: string, i: nat, j: nat)
    requires i < |s| && j < |s|
    ensures |Upper(s)| == |s| == |Lower(s)|
    ensures if 'a' <= s[i] <= 'z' then 'A' <= Upper(s)[i] <= 'Z' else Upper(s)[i] == s[i]
    ensures if 'A' <= s[i] <= 'Z' then 'a' <= Lower(s)[i] <= 'z' else Lower(s)[i] == s[i]
    ensures 'a' <= s[i] < s[j] <= 'z' ==> Upper(s)[i] < Upper(s)[j]
    ensures 'A' <= s[i] < s[j] <= 'Z' ==> Lower(s)[i] < Lower(s)[j]
    ensures Lower(Upper(s)) == Lower(s) && Upper(Lower(s)) == Upper(s)
  {
  }

  /** The `||` of two strings, in JavaScript as in Python. */
  function Or(a: string, b: string): string {
    if a != "" then a else b
  }

  // ---------- join ----------

  function Join(parts: seq<string>, sep: string): string {
    if parts == [] then ""
    else if |parts| == 1 then parts[0]
    else parts[0] + sep + Join(parts[1..], sep)
  }

  lemma JoinCons(first: string, rest: seq<string>, sep: string)
    requires rest != []
    ensures Join([first] + rest, sep) == first + sep + Join(rest, sep)
  {
    assert ([first] + rest)[1..] == rest;
  }

  // ---------- decimal numerals ----------

  function Digit(d: nat): char
    requires d < 10
  {
    '0' + d as char
  }

  function Decimal(n: nat): (s: string)
    ensures s != "" && forall i :: 0 <= i < |s| ==> '0' <= s[i] <= '9'
  {
    if n < 10 then [Digit(n)] else Decimal(n / 10) + [Digit(n % 10)]
  }

  /** The number a numeral stands for. */
  function Number(s: string): nat
    requires forall i :: 0 <= i < |s| ==> '0' <= s[i] <= '9'
  {
    if s == "" then 0 else 10 * Number(s[..|s| - 1]) + (s[|s| - 1] - '0') as nat
  }

  /** A numeral stands for its number, without a zero before it. */
  lemma {:induction false} DecimalMeans(n: nat)
    ensures Number(Decimal(n)) == n && (Decimal(n)[0] == '0' ==> n == 0)
  {
    if n >= 10 {
      DecimalMeans(n / 10);
      assert Decimal(n)[..|Decimal(n)| - 1] == Decimal(n / 10);
    } else {
      assert [Digit(n)][..0] == "";
    }
  }

  /** Different numbers have different numerals. */
  lemma {:induction false} DecimalInjective(a: nat, b: nat)
    requires Decimal(a) == Decimal(b)
    ensures a == b
  {
    var s, t := Decimal(a), Decimal(b);
    assert s[|s| - 1] == Digit(a % 10) && t[|t| - 1] == Digit(b % 10);
    assert a % 10 == b % 10;
    if a >= 10 && b >= 10 {
      assert Decimal(a / 10) == s[..|s| - 1] == t[..|t| - 1] == Decimal(b / 10);
      DecimalInjective(a / 10, b / 10);
    }
  }
}
