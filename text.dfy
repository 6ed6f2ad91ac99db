/** String helpers with JavaScript's meaning: white space as `trim` and `\s`
    see it, ASCII-only case mapping, substring search, `split`/`join`, and
    decimal rendering of integers (as in template literals and `String(n)`). */
module Text {

  /** The characters that `String.prototype.trim` removes and that the regular
      expression class `\s` matches. */
  predicate IsSpace(c: char) {
    || c == ' ' || c == '\t' || c == '\n' || c == '\r' || c == '\U{000B}' || c == '\U{000C}'
    || c == '\U{00A0}' || c == '\U{1680}' || ('\U{2000}' <= c <= '\U{200A}')
    || c == '\U{2028}' || c == '\U{2029}' || c == '\U{202F}' || c == '\U{205F}'
    || c == '\U{3000}' || c == '\U{FEFF}'
  }

  /** Every character of `s` is white space (the empty string included). */
  predicate IsBlank(s: string) {
    forall i :: 0 <= i < |s| ==> IsSpace(s[i])
  }

  /** A non-empty run of characters none of which is white space. */
  predicate IsWord(w: string) {
    |w| > 0 && forall i :: 0 <= i < |w| ==> !IsSpace(w[i])
  }

  // ---------- case mapping (ASCII letters only) ----------

  function LowerChar(c: char): (r: char)
    ensures 'A' <= c <= 'Z' ==> r as int == c as int + 32
    ensures !('A' <= c <= 'Z') ==> r == c
  {
    if 'A' <= c <= 'Z' then (c as int + 32) as char else c
  }

  function UpperChar(c: char): (r: char)
    ensures 'a' <= c <= 'z' ==> r as int == c as int - 32
    ensures !('a' <= c <= 'z') ==> r == c
  {
    if 'a' <= c <= 'z' then (c as int - 32) as char else c
  }

  /** `toLowerCase` restricted to ASCII letters. */
  function Lower(s: string): (r: string)
    ensures |r| == |s|
    ensures forall i :: 0 <= i < |s| ==> r[i] == LowerChar(s[i])
  {
    seq(|s|, i requires 0 <= i < |s| => LowerChar(s[i]))
  }

  /** `toUpperCase` restricted to ASCII letters. */
  function Upper(s: string): (r: string)
    ensures |r| == |s|
    ensures forall i :: 0 <= i < |s| ==> r[i] == UpperChar(s[i])
  {
    seq(|s|, i requires 0 <= i < |s| => UpperChar(s[i]))
  }

  lemma LowerAppend(a: string, b: string)
    ensures Lower(a + b) == Lower(a) + Lower(b)
  {
  }

  /** Upper-casing forgets whether a letter was lower-cased first, so a
      comparison through `Upper` is case-insensitive. */
  lemma UpperOfLower(s: string)
    ensures Upper(Lower(s)) == Upper(s)
  {
  }

  // ---------- substring search ----------

  /** `hay.includes(needle)`. */
  predicate Contains(hay: string, needle: string)
    decreases |hay|
  {
    needle <= hay || (hay != [] && Contains(hay[1..], needle))
  }

  lemma {:induction false} ContainsInfix(a: string, needle: string, b: string)
    ensures Contains(a + needle + b, needle)
  {
    if a == [] {
      assert needle <= a + needle + b;
    } else {
      assert (a + needle + b)[1..] == a[1..] + needle + b;
      ContainsInfix(a[1..], needle, b);
    }
  }

  // ---------- trimming ----------

  function TrimStart(s: string): (r: string)
    ensures |r| <= |s| && r == s[|s| - |r|..]
    ensures r == [] || !IsSpace(r[0])
    ensures forall i :: 0 <= i < |s| - |r| ==> IsSpace(s[i])
  {
    if s != [] && IsSpace(s[0]) then TrimStart(s[1..]) else s
  }

  function TrimEnd(s: string): (r: string)
    ensures |r| <= |s| && r == s[..|r|]
    ensures r == [] || !IsSpace(r[|r| - 1])
    ensures forall i :: |r| <= i < |s| ==> IsSpace(s[i])
  {
    if s != [] && IsSpace(s[|s| - 1]) then TrimEnd(s[..|s| - 1]) else s
  }

  /** `String.prototype.trim`. */
  function Trim(s: string): (r: string)
    ensures r == [] || (!IsSpace(r[0]) && !IsSpace(r[|r| - 1]))
    ensures r == [] <==> IsBlank(s)
  {
    var t := TrimStart(s);
    assert t == [] ==> IsBlank(s);
    TrimEnd(t)
  }

  /** A string that neither starts nor ends with white space is its own trim. */
  lemma TrimNoEdges(s: string)
    requires s == [] || (!IsSpace(s[0]) && !IsSpace(s[|s| - 1]))
    ensures Trim(s) == s
  {
  }

  // ---------- splitting on white space ----------

  /** The longest prefix of `s` without white space. */
  function Token(s: string): (w: string)
    ensures w <= s
    ensures forall i :: 0 <= i < |w| ==> !IsSpace(w[i])
    ensures |w| == |s| || IsSpace(s[|w|])
  {
    if s == [] || IsSpace(s[0]) then [] else [s[0]] + Token(s[1..])
  }

  /** The maximal runs of non-white-space characters of `s`, in order. For a
      trimmed, non-empty `s` this is `s.split(/\s+/)`. */
  function Words(s: string): (ws: seq<string>)
    decreases |s|
  {
    var t := TrimStart(s);
    if t == [] then []
    else
      var w := Token(t);
      assert |w| >= 1;
      [w] + Words(t[|w|..])
  }

  /** Every piece `Words` produces is a word. */
  lemma {:induction false} WordsAreWords(s: string)
    ensures forall i :: 0 <= i < |Words(s)| ==> IsWord(Words(s)[i])
    decreases |s|
  {
    var t := TrimStart(s);
    if t != [] {
      var w := Token(t);
      assert |w| >= 1;
      var rest := Words(t[|w|..]);
      WordsAreWords(t[|w|..]);
      assert IsWord(w);
      AllWordsCons(w, rest);
      assert Words(s) == [w] + rest;
    }
  }

  /** Prepending a word to a list of words gives a list of words. */
  lemma AllWordsCons(w: string, ws: seq<string>)
    requires IsWord(w) && forall i :: 0 <= i < |ws| ==> IsWord(ws[i])
    ensures forall i :: 0 <= i < |[w] + ws| ==> IsWord(([w] + ws)[i])
  {
  }

  /** A string has no words exactly when it is blank. */
  lemma WordsEmpty(s: string)
    ensures Words(s) == [] <==> IsBlank(s)
  {
    var t := TrimStart(s);
    if t != [] {
      assert !IsSpace(s[|s| - |t|]);
    }
  }

  /** `ws.join(sep)`. */
  function Join(ws: seq<string>, sep: string): string
  {
    if |ws| == 0 then [] else if |ws| == 1 then ws[0] else ws[0] + sep + Join(ws[1..], sep)
  }

  lemma JoinPair(a: string, b: string, sep: string)
    ensures Join([a, b], sep) == a + sep + b
  {
    assert [a, b][1..] == [b];
  }

  lemma JoinCons(a: string, ws: seq<string>, sep: string)
    requires |ws| >= 1
    ensures Join([a] + ws, sep) == a + sep + Join(ws, sep)
  {
    assert ([a] + ws)[1..] == ws;
  }

  lemma {:induction false} TokenOfWord(w: string, r: string)
    requires IsWord(w)
    ensures Token(w) == w
    ensures Token(w + [' '] + r) == w
  {
    if |w| > 1 {
      assert (w + [' '] + r)[1..] == w[1..] + [' '] + r;
      TokenOfWord(w[1..], r);
    } else {
      assert (w + [' '] + r)[1..] == [' '] + r;
    }
  }

  lemma WordsOfWord(w: string)
    requires IsWord(w)
    ensures Words(w) == [w]
  {
    TokenOfWord(w, []);
    assert w[|w|..] == [];
  }

  lemma WordsCons(w: string, r: string)
    requires IsWord(w)
    ensures Words(w + [' '] + r) == [w] + Words(r)
  {
    var s := w + [' '] + r;
    TokenOfWord(w, r);
    assert TrimStart(s) == s;
    assert s[|w|..] == [' '] + r;
    assert ([' '] + r)[1..] == r;
  }

  /** Splitting words joined by single spaces gives the words back. */
  lemma {:induction false} WordsOfJoin(ws: seq<string>)
    requires forall i :: 0 <= i < |ws| ==> IsWord(ws[i])
    ensures Words(Join(ws, " ")) == ws
  {
    if |ws| == 0 {
    } else if |ws| == 1 {
      WordsOfWord(ws[0]);
    } else {
      WordsOfJoin(ws[1..]);
      WordsCons(ws[0], Join(ws[1..], " "));
    }
  }

  /** Words joined by single spaces start and end with a non-space character. */
  lemma {:induction false} JoinEdges(ws: seq<string>)
    requires |ws| >= 1
    requires forall i :: 0 <= i < |ws| ==> IsWord(ws[i])
    ensures Join(ws, " ") != []
    ensures !IsSpace(Join(ws, " ")[0])
    ensures !IsSpace(Join(ws, " ")[|Join(ws, " ")| - 1])
  {
    if |ws| > 1 {
      JoinEdges(ws[1..]);
      var tail := Join(ws[1..], " ");
      assert Join(ws, " ") == ws[0] + " " + tail;
      assert Join(ws, " ")[0] == ws[0][0];
      assert Join(ws, " ")[|Join(ws, " ")| - 1] == tail[|tail| - 1];
    }
  }

  // ---------- splitting on a separator character ----------

  /** `s.split(c)` for a one-character separator. */
  function SplitOn(s: string, c: char): (parts: seq<string>)
    ensures |parts| >= 1
  {
    if s == [] then [[]]
    else
      var rest := SplitOn(s[1..], c);
      if s[0] == c then [[]] + rest else [[s[0]] + rest[0]] + rest[1..]
  }

  lemma {:induction false} SplitOnPrefix(p: string, c: char, t: string)
    requires c !in p
    ensures SplitOn(p + [c] + t, c) == [p] + SplitOn(t, c)
    ensures SplitOn(p, c) == [p]
  {
    if p == [] {
      assert ([c] + t)[1..] == t;
    } else {
      assert (p + [c] + t)[1..] == p[1..] + [c] + t;
      SplitOnPrefix(p[1..], c, t);
      assert [p[0]] + p[1..] == p;
    }
  }

  /** Splitting pieces joined by a separator they do not contain gives the pieces back. */
  lemma {:induction false} SplitOnJoin(ps: seq<string>, c: char)
    requires |ps| >= 1
    requires forall i :: 0 <= i < |ps| ==> c !in ps[i]
    ensures SplitOn(Join(ps, [c]), c) == ps
  {
    SplitOnPrefix(ps[0], c, []);
    if |ps| > 1 {
      var rest := ps[1..];
      assert forall i :: 0 <= i < |rest| ==> c !in rest[i] by {
        forall i | 0 <= i < |rest| ensures c !in rest[i] { assert rest[i] == ps[i + 1]; }
      }
      SplitOnJoin(rest, c);
      var tail := Join(rest, [c]);
      assert Join(ps, [c]) == ps[0] + [c] + tail;
      SplitOnPrefix(ps[0], c, tail);
      assert [ps[0]] + rest == ps;
    }
  }

  // ---------- numbers as text ----------

  function DigitChar(d: nat): (c: char)
    requires d < 10
    ensures '0' <= c <= '9'
    ensures c as int - '0' as int == d
  {
    (d + '0' as int) as char
  }

  /** Decimal digits of `n`, as a template literal renders a non-negative integer. */
  function NatToString(n: nat): (r: string)
    ensures r != []
    ensures forall i :: 0 <= i < |r| ==> '0' <= r[i] <= '9'
    ensures (n < 10) <==> |r| == 1
  {
    if n < 10 then [DigitChar(n)] else NatToString(n / 10) + [DigitChar(n % 10)]
  }

  /** The value of a string of decimal digits. */
  function DigitsValue(s: string): nat
    requires forall i :: 0 <= i < |s| ==> '0' <= s[i] <= '9'
  {
    if s == [] then 0 else 10 * DigitsValue(s[..|s| - 1]) + (s[|s| - 1] as int - '0' as int)
  }

  /** Rendering loses nothing: the digits read back as the number. */
  lemma {:induction false} NatToStringValue(n: nat)
    ensures DigitsValue(NatToString(n)) == n
  {
    var r := NatToString(n);
    if n >= 10 {
      NatToStringValue(n / 10);
      assert r[..|r| - 1] == NatToString(n / 10);
    }
  }

  /** `String(n)` for an integer. */
  function IntToString(n: int): (r: string)
    ensures r != []
    ensures n < 0 <==> r[0] == '-'
  {
    if n < 0 then "-" + NatToString(-n) else NatToString(n)
  }
}
