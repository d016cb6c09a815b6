/** ASCII string operations with the behaviour of Python's `str` methods and `re` classes. */
module Text {

  /** `str.isspace` and the regular expression class `\s`, on ASCII. */
  predicate IsSpace(c: char) {
    c == ' ' || '\t' <= c <= '\r' || '\U{1c}' <= c <= '\U{1f}'
  }

  /** Ten characters are blank. */
  lemma BlankChars(c: char)
    ensures IsSpace(c) <==>
      c in {' ', '\t', '\n', '\U{b}', '\U{c}', '\r', '\U{1c}', '\U{1d}', '\U{1e}', '\U{1f}'}
  {
  }

  predicate IsUpper(c: char) { 'A' <= c <= 'Z' }

  predicate IsLower(c: char) { 'a' <= c <= 'z' }

  predicate IsDigit(c: char) { '0' <= c <= '9' }

  predicate AllDigits(s: string) {
    s != "" && forall i | 0 <= i < |s| :: IsDigit(s[i])
  }

  function LowerChar(c: char): char { if IsUpper(c) then c + 32 as char else c }

  function UpperChar(c: char): char { if IsLower(c) then c - 32 as char else c }

  function Lower(s: string): string { seq(|s|, i requires 0 <= i < |s| => LowerChar(s[i])) }

  function Upper(s: string): string { seq(|s|, i requires 0 <= i < |s| => UpperChar(s[i])) }

  function SkipSpace(s: string): (r: string)
    ensures |r| <= |s|
  {
    if s != "" && IsSpace(s[0]) then SkipSpace(s[1..]) else s
  }

  function RStrip(s: string): (r: string)
    ensures |r| <= |s|
  {
    if s != "" && IsSpace(s[|s| - 1]) then RStrip(s[..|s| - 1]) else s
  }

  function Strip(s: string): (r: string)
    ensures |r| <= |s|
  {
    RStrip(SkipSpace(s))
  }

  /** `" ".join(s.split())`: words separated by single blanks, none at either end. */
  function Squeeze(s: string): (r: string)
    ensures |r| <= |s|
  {
    if s == "" then ""
    else
      var init, last := s[..|s| - 1], s[|s| - 1];
      var head := Squeeze(init);
      if IsSpace(last) then head
      else if head != "" && IsSpace(init[|init| - 1]) then head + [' ', last]
      else head + [last]
  }

  /** Lower-case words separated by single blanks. */
  predicate IsNormal(s: string) {
    forall i: nat | i < |s| :: NormalAt(s, i)
  }

  predicate NormalAt(s: string, i: nat)
    requires i < |s|
  {
    && !IsUpper(s[i])
    && (IsSpace(s[i]) ==> s[i] == ' ' && 0 < i < |s| - 1 && !IsSpace(s[i + 1]))
  }

  lemma SqueezeSnoc(init: string, c: char)
    ensures Squeeze(init + [c]) ==
      if IsSpace(c) then Squeeze(init)
      else if Squeeze(init) != "" && IsSpace(init[|init| - 1]) then Squeeze(init) + [' ', c]
      else Squeeze(init) + [c]
  {
    var s := init + [c];
    assert s[..|s| - 1] == init;
  }

  lemma {:induction false} SqueezePrefix(s: string, k: nat)
    requires IsNormal(s) && k <= |s|
    ensures Squeeze(s[..k]) == if k > 0 && IsSpace(s[k - 1]) then s[..k - 1] else s[..k]
  {
    if k > 0 {
      hide Squeeze, IsSpace;
      assert NormalAt(s, k - 1) && (k > 1 ==> NormalAt(s, k - 2));
      SqueezePrefix(s, k - 1);
      assert s[..k] == s[..k - 1] + [s[k - 1]];
      SqueezeSnoc(s[..k - 1], s[k - 1]);
      if k > 1 && IsSpace(s[k - 2]) {
        assert s[..k] == s[..k - 2] + [' ', s[k - 1]];
      }
    }
  }

  lemma SqueezeNormal(s: string)
    requires IsNormal(s)
    ensures Squeeze(s) == s && Lower(s) == s
  {
    SqueezePrefix(s, |s|);
    assert s[..|s|] == s;
    assert s != "" ==> NormalAt(s, |s| - 1);
    forall i: nat | i < |s|
      ensures Lower(s)[i] == s[i]
    {
      assert NormalAt(s, i);
    }
  }

  lemma {:induction false} SqueezeIsNormal(s: string)
    requires forall i | 0 <= i < |s| :: !IsUpper(s[i])
    ensures IsNormal(Squeeze(s))
    ensures Squeeze(s) != "" ==> !IsSpace(Squeeze(s)[|Squeeze(s)| - 1])
  {
    if s != "" {
      var init, last := s[..|s| - 1], s[|s| - 1];
      SqueezeIsNormal(init);
      var head := Squeeze(init);
      forall i: nat | i < |Squeeze(s)|
        ensures NormalAt(Squeeze(s), i)
      {
        if i < |head| {
          assert NormalAt(head, i);
        }
      }
    }
  }

  // ---- Words ----

  /** Length of the longest front part without blanks. */
  function WordRun(s: string): (n: nat)
    ensures n <= |s| && (s != "" && !IsSpace(s[0]) ==> n > 0)
  {
    if s != "" && !IsSpace(s[0]) then 1 + WordRun(s[1..]) else 0
  }

  /** `s.split()`: the maximal parts without blanks, in order. */
  function Words(s: string): seq<string>
    decreases |s|
  {
    if s == "" then []
    else if IsSpace(s[0]) then Words(s[1..])
    else [s[..WordRun(s)]] + Words(s[WordRun(s)..])
  }

  /** The words with single blanks between them. */
  function Join(ws: seq<string>): string {
    if ws == [] then ""
    else if |ws| == 1 then ws[0]
    else Join(ws[..|ws| - 1]) + " " + ws[|ws| - 1]
  }

  function LowerAll(ws: seq<string>): seq<string> {
    seq(|ws|, i requires 0 <= i < |ws| => Lower(ws[i]))
  }

  /** The words after one more character. */
  function WordsThen(ws: seq<string>, open: bool, c: char): seq<string> {
    if IsSpace(c) then ws
    else if open && ws != [] then ws[..|ws| - 1] + [ws[|ws| - 1] + [c]]
    else ws + [[c]]
  }

  predicate EndsInWord(s: string) { s != "" && !IsSpace(s[|s| - 1]) }

  lemma {:induction false} WordRunSnoc(s: string, c: char)
    ensures WordRun(s + [c]) == if WordRun(s) == |s| && !IsSpace(c) then |s| + 1 else WordRun(s)
  {
    if s == "" {
      assert s + [c] == [c] && [c][1..] == "";
    } else {
      assert (s + [c])[1..] == s[1..] + [c];
      WordRunSnoc(s[1..], c);
    }
  }

  lemma {:induction false} WordRunBlank(s: string)
    ensures WordRun(s) < |s| ==> IsSpace(s[WordRun(s)])
    ensures forall i | 0 <= i < WordRun(s) :: !IsSpace(s[i])
  {
    if s != "" && !IsSpace(s[0]) {
      WordRunBlank(s[1..]);
      assert forall i | 0 < i < WordRun(s) :: s[i] == s[1..][i - 1];
    }
  }

  lemma WordsThenFront(w: string, ws: seq<string>, open: bool, c: char)
    requires open ==> ws != []
    ensures WordsThen([w] + ws, open, c) == [w] + WordsThen(ws, open, c)
  {
    hide IsSpace;
    if open {
      assert ([w] + ws)[..|ws|] == [w] + ws[..|ws| - 1];
    }
  }

  lemma {:induction false} WordsSnoc(s: string, c: char)
    ensures Words(s + [c]) == WordsThen(Words(s), EndsInWord(s), c)
    ensures EndsInWord(s) ==> Words(s) != []
    decreases |s|
  {
    hide IsSpace, WordRun;
    var t := s + [c];
    WordRunSnoc(s, c);
    WordRunBlank(s);
    if s == "" {
      OneChar(c);
      assert t == [c];
    } else if IsSpace(s[0]) {
      assert t[1..] == s[1..] + [c];
      WordsSnoc(s[1..], c);
    } else if WordRun(s) == |s| {
      OneWord(s, c);
    } else {
      var n := WordRun(s);
      assert n > 0 && t[..n] == s[..n] && t[n..] == s[n..] + [c];
      WordsSnoc(s[n..], c);
      WordsThenFront(s[..n], Words(s[n..]), EndsInWord(s[n..]), c);
    }
  }

  lemma OneChar(c: char)
    ensures Words([c]) == if IsSpace(c) then [] else [[c]]
  {
    hide IsSpace;
    assert [c][1..] == "" && WordRun("") == 0;
    if !IsSpace(c) {
      assert WordRun([c]) == 1 && [c][..1] == [c];
    }
  }

  lemma OneWord(s: string, c: char)
    requires s != "" && !IsSpace(s[0]) && WordRun(s) == |s| && EndsInWord(s)
    requires WordRun(s + [c]) == if IsSpace(c) then |s| else |s| + 1
    ensures Words(s) == [s] && Words(s + [c]) == WordsThen([s], true, c)
  {
    hide IsSpace, WordRun;
    var t := s + [c];
    assert s[..|s|] == s && s[|s|..] == "";
    if IsSpace(c) {
      assert t[..|s|] == s && t[|s|..] == [c];
      OneChar(c);
    } else {
      assert t[..|t|] == t && t[|t|..] == "";
    }
  }

  /** Squeezing keeps the words, and says nothing but the words. */
  lemma {:induction false} SqueezeWords(s: string)
    ensures Words(Squeeze(s)) == Words(s) && Squeeze(s) == Join(Words(s))
    ensures EndsInWord(s) ==> EndsInWord(Squeeze(s))
    ensures Squeeze(s) != "" ==> EndsInWord(Squeeze(s))
  {
    if s != "" {
      var init, c := s[..|s| - 1], s[|s| - 1];
      assert s == init + [c];
      var head := Squeeze(init);
      SqueezeWords(init);
      SqueezeSnoc(init, c);
      WordsSnoc(init, c);
      if !IsSpace(c) {
        if head != "" && IsSpace(init[|init| - 1]) {
          assert head + [' ', c] == (head + [' ']) + [c];
          WordsSnoc(head, ' ');
          WordsSnoc(head + [' '], c);
        } else {
          WordsSnoc(head, c);
        }
        JoinThen(Words(init), EndsInWord(init), c);
      }
    }
  }

  lemma JoinThen(ws: seq<string>, open: bool, c: char)
    requires !IsSpace(c)
    ensures Join(WordsThen(ws, open, c)) ==
      if open || ws == [] then Join(ws) + [c] else Join(ws) + [' ', c]
  {
    var more := WordsThen(ws, open, c);
    assert more[..|more| - 1] == if open && ws != [] then ws[..|ws| - 1] else ws;
    assert " " + [c] == [' ', c];
  }

  /** Two texts squeeze to the same text exactly when they have the same words. */
  lemma SqueezeByWords(a: string, b: string)
    ensures Squeeze(a) == Squeeze(b) <==> Words(a) == Words(b)
  {
    SqueezeWords(a);
    SqueezeWords(b);
  }

  lemma BlankLower(s: string)
    requires s != ""
    ensures Lower(s)[0] == LowerChar(s[0]) && IsSpace(Lower(s)[0]) == IsSpace(s[0]) && Lower(s)[1..] == Lower(s[1..])
  {
  }

  lemma {:induction false} WordRunLower(s: string)
    ensures WordRun(Lower(s)) == WordRun(s)
  {
    hide IsSpace, LowerChar;
    if s != "" {
      BlankLower(s);
      WordRunLower(s[1..]);
    }
  }

  lemma {:induction false} WordsLower(s: string)
    ensures Words(Lower(s)) == LowerAll(Words(s))
    decreases |s|
  {
    hide IsSpace, LowerChar, WordRun;
    if s != "" {
      BlankLower(s);
      if IsSpace(s[0]) {
        WordsLower(s[1..]);
      } else {
        var n := WordRun(s);
        WordRunLower(s);
        assert Lower(s)[..n] == Lower(s[..n]) && Lower(s)[n..] == Lower(s[n..]);
        WordsLower(s[n..]);
      }
    }
  }

  /** `t.startswith(p)`. */
  predicate StartsWith(t: string, p: string) {
    |p| <= |t| && t[..|p|] == p
  }

  lemma OtherStart(t: string, p: string)
    requires p != "" && (t == "" || t[0] != p[0])
    ensures !StartsWith(t, p)
  {
    if t != "" && |p| <= |t| {
      assert t[..|p|][0] == t[0];
    }
  }

  lemma TooShort(t: string, p: string)
    requires |t| < |p|
    ensures !StartsWith(t, p)
  {
  }

  predicate OccursAt(t: string, sub: string, i: nat) {
    i + |sub| <= |t| && t[i..i + |sub|] == sub
  }

  /** `sub in t`. */
  predicate Contains(t: string, sub: string) {
    exists i: nat | i <= |t| :: OccursAt(t, sub, i)
  }

  /** Length of the longest run of digits at the front of `s`. */
  function DigitRun(s: string): (n: nat)
    ensures n <= |s|
    ensures n > 0 ==> AllDigits(s[..n])
    ensures n < |s| ==> !IsDigit(s[n])
  {
    if s != "" && IsDigit(s[0]) then
      var n := DigitRun(s[1..]) + 1;
      assert forall i | 0 < i < n :: s[i] == s[1..][..n - 1][i - 1];
      n
    else 0
  }

  lemma {:induction false} DigitRunExact(d: string, rest: string)
    requires AllDigits(d) && (rest != "" ==> !IsDigit(rest[0]))
    ensures DigitRun(d + rest) == |d|
    ensures (d + rest)[..|d|] == d && (d + rest)[|d|..] == rest
  {
    assert (d + rest)[1..] == d[1..] + rest;
    if |d| > 1 {
      assert forall i | 0 <= i < |d| - 1 :: d[1..][i] == d[i + 1];
      DigitRunExact(d[1..], rest);
    }
  }

  /** `str(n)`. */
  function Decimal(n: nat): (s: string)
    ensures AllDigits(s)
  {
    var last := [('0' as int + n % 10) as char];
    if n < 10 then last else Decimal(n / 10) + last
  }

  /** `int(s)`. */
  function ParseDecimal(s: string): nat
    requires AllDigits(s)
  {
    var last := s[|s| - 1] as int - '0' as int;
    assert forall i | 0 <= i < |s| - 1 :: s[..|s| - 1][i] == s[i];
    if |s| == 1 then last else 10 * ParseDecimal(s[..|s| - 1]) + last
  }

  lemma {:induction false} ParseDecimalInverts(n: nat)
    ensures ParseDecimal(Decimal(n)) == n
  {
    if n >= 10 {
      ParseDecimalInverts(n / 10);
      var s := Decimal(n);
      assert s[..|s| - 1] == Decimal(n / 10);
    }
  }
}
