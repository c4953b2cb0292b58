/** The string primitives the roster job relies on, restricted to ASCII:
    `str.split()`, `str.replace(c, "")`, `str.replace(a, b)` and `int()`
    on a string of decimal digits. */
module Text {
  import opened Results

  predicate IsDigit(c: char) { '0' <= c <= '9' }

  predicate AllDigits(s: string) { forall i :: 0 <= i < |s| ==> IsDigit(s[i]) }

  /** The ASCII characters `str.split()` treats as whitespace:
      tab, line feed, vertical tab, form feed, carriage return,
      the four separators 0x1C..0x1F, and space. */
  predicate IsSpace(c: char) { 9 <= c as int <= 13 || 28 <= c as int <= 32 }

  predicate NoSpace(s: string) { forall i :: 0 <= i < |s| ==> !IsSpace(s[i]) }

  predicate AllSpace(s: string) { forall i :: 0 <= i < |s| ==> IsSpace(s[i]) }

  function DigitValue(c: char): nat
    requires IsDigit(c)
  {
    c as int - '0' as int
  }

  function DigitChar(d: nat): (c: char)
    requires d < 10
    ensures IsDigit(c) && DigitValue(c) == d
  {
    ('0' as int + d) as char
  }

  /** The number a string of decimal digits denotes, most significant first. */
  function DigitsValue(s: string): nat
    requires AllDigits(s)
  {
    if s == [] then 0 else DigitsValue(s[..|s| - 1]) * 10 + DigitValue(s[|s| - 1])
  }

  /** `str(n)` for a natural number: its shortest decimal spelling. */
  function Decimal(n: nat): (s: string)
    ensures s != [] && AllDigits(s)
  {
    if n < 10 then [DigitChar(n)] else Decimal(n / 10) + [DigitChar(n % 10)]
  }

  /** Python's `int(s)` on ASCII input: a non-empty run of digits parses
      (leading zeros allowed); anything else, the empty string included,
      raises `ValueError`. */
  function ParseInt(s: string): Option<nat>
  {
    if s != [] && AllDigits(s) then Some(DigitsValue(s)) else None
  }

  lemma {:induction false} DecimalValue(n: nat)
    ensures DigitsValue(Decimal(n)) == n
  {
    if n >= 10 {
      var s := Decimal(n);
      assert s[..|s| - 1] == Decimal(n / 10);
      DecimalValue(n / 10);
    }
  }

  /** `int(str(n)) == n`. */
  lemma ParseDecimal(n: nat)
    ensures ParseInt(Decimal(n)) == Some(n)
  {
    DecimalValue(n);
  }

  /** `int(s)` succeeds exactly on the non-empty digit strings. */
  lemma ParseIntSucceeds(s: string)
    ensures ParseInt(s).Some? <==> s != [] && AllDigits(s)
  {
  }

  // ---------------------------------------------------------------- split

  /** Python's `s.split()` with no separator: the maximal runs of
      non-whitespace characters, in order. */
  function Split(s: string): seq<string>
  {
    SplitFrom(s, [])
  }

  /** Splitting the rest of a string when the token `cur` is in progress. */
  function SplitFrom(s: string, cur: string): seq<string>
  {
    if s == [] then
      if cur == [] then [] else [cur]
    else if IsSpace(s[0]) then
      if cur == [] then SplitFrom(s[1..], []) else [cur] + SplitFrom(s[1..], [])
    else
      SplitFrom(s[1..], cur + [s[0]])
  }

  /** Every token is non-empty and holds no whitespace. */
  lemma {:induction false} SplitFromTokens(s: string, cur: string)
    requires NoSpace(cur)
    ensures forall i :: 0 <= i < |SplitFrom(s, cur)| ==>
      SplitFrom(s, cur)[i] != [] && NoSpace(SplitFrom(s, cur)[i])
  {
    if s != [] {
      if IsSpace(s[0]) {
        SplitFromTokens(s[1..], []);
      } else {
        SplitFromTokens(s[1..], cur + [s[0]]);
      }
    }
  }

  lemma SplitTokens(s: string)
    ensures forall i :: 0 <= i < |Split(s)| ==> Split(s)[i] != [] && NoSpace(Split(s)[i])
  {
    SplitFromTokens(s, []);
  }

  /** Characters without whitespace extend the token in progress. */
  lemma {:induction false} SplitFromWord(w: string, rest: string, cur: string)
    requires NoSpace(w)
    ensures SplitFrom(w + rest, cur) == SplitFrom(rest, cur + w)
  {
    if w == [] {
      assert w + rest == rest && cur + w == cur;
    } else {
      assert (w + rest)[1..] == w[1..] + rest;
      assert cur + w == (cur + [w[0]]) + w[1..];
      SplitFromWord(w[1..], rest, cur + [w[0]]);
    }
  }

  /** Whitespace with no token in progress is skipped. */
  lemma {:induction false} SplitFromSpace(sp: string, rest: string)
    requires AllSpace(sp)
    ensures SplitFrom(sp + rest, []) == SplitFrom(rest, [])
  {
    if sp != [] {
      assert (sp + rest)[1..] == sp[1..] + rest;
      SplitFromSpace(sp[1..], rest);
    } else {
      assert sp + rest == rest;
    }
  }

  /** A token followed by whitespace (or by nothing) splits off as the first token. */
  lemma SplitToken(w: string, rest: string)
    requires w != [] && NoSpace(w)
    requires rest == [] || IsSpace(rest[0])
    ensures Split(w + rest) == [w] + Split(rest)
  {
    SplitFromWord(w, rest, []);
    assert [] + w == w;
    if rest != [] {
      SplitFromSpace([rest[0]], rest[1..]);
      assert [rest[0]] + rest[1..] == rest;
    }
  }

  /** Leading whitespace does not change the tokens. */
  lemma SplitSkipsSpace(sp: string, rest: string)
    requires AllSpace(sp)
    ensures Split(sp + rest) == Split(rest)
  {
    SplitFromSpace(sp, rest);
  }

  /** With no token in progress, there are no tokens exactly when all is whitespace. */
  lemma {:induction false} SplitFromEmpty(s: string)
    ensures SplitFrom(s, []) == [] <==> AllSpace(s)
  {
    if s != [] {
      if IsSpace(s[0]) {
        SplitFromEmpty(s[1..]);
      } else {
        assert [] + [s[0]] == [s[0]];
        SplitFromTokensNonEmpty(s[1..], [s[0]]);
      }
    }
  }

  /** A token in progress is never lost. */
  lemma {:induction false} SplitFromTokensNonEmpty(s: string, cur: string)
    requires cur != []
    ensures SplitFrom(s, cur) != []
  {
    if s != [] && !IsSpace(s[0]) {
      SplitFromTokensNonEmpty(s[1..], cur + [s[0]]);
    }
  }

  /** `s.split()` is empty exactly when `s` is empty or all whitespace. */
  lemma SplitEmpty(s: string)
    ensures Split(s) == [] <==> AllSpace(s)
  {
    SplitFromEmpty(s);
  }

  /** Joining tokens with single spaces: the inverse of `Split`. */
  function Unsplit(ws: seq<string>): string
  {
    if ws == [] then [] else if |ws| == 1 then ws[0] else ws[0] + " " + Unsplit(ws[1..])
  }

  /** A token, one space, then the rest: the token comes off first. */
  lemma SplitSpaced(w: string, rest: string)
    requires w != [] && NoSpace(w)
    ensures Split(w + " " + rest) == [w] + Split(rest)
  {
    assert w + " " + rest == w + (" " + rest);
    SplitToken(w, " " + rest);
    SplitSkipsSpace(" ", rest);
  }

  /** Round trip: splitting tokens joined by single spaces gives the tokens back. */
  lemma {:induction false} SplitUnsplit(ws: seq<string>)
    requires forall i :: 0 <= i < |ws| ==> ws[i] != [] && NoSpace(ws[i])
    ensures Split(Unsplit(ws)) == ws
  {
    if ws == [] {
      assert Split([]) == [];
    } else if |ws| == 1 {
      SplitToken(ws[0], []);
      assert ws[0] + [] == ws[0];
    } else {
      var tail := ws[1..];
      assert Split(Unsplit(ws)) == [ws[0]] + Split(Unsplit(tail)) by {
        SplitSpaced(ws[0], Unsplit(tail));
      }
      assert Split(Unsplit(tail)) == tail by {
        SplitUnsplit(tail);
      }
      assert ws == [ws[0]] + tail;
    }
  }

  // ------------------------------------------------------------- replace

  /** `s.replace(c, "")`: every occurrence of `c` deleted. */
  function RemoveAll(s: string, c: char): (r: string)
    ensures c !in r
  {
    if s == [] then [] else (if s[0] == c then [] else [s[0]]) + RemoveAll(s[1..], c)
  }

  /** Deleting a character that does not occur changes nothing. */
  lemma {:induction false} RemoveAbsent(s: string, c: char)
    requires c !in s
    ensures RemoveAll(s, c) == s
  {
    if s != [] {
      RemoveAbsent(s[1..], c);
    }
  }

  /** Deleting distributes over concatenation. */
  lemma {:induction false} RemoveAppend(s: string, t: string, c: char)
    ensures RemoveAll(s + t, c) == RemoveAll(s, c) + RemoveAll(t, c)
  {
    if s == [] {
      assert s + t == t;
    } else {
      assert (s + t)[0] == s[0] && (s + t)[1..] == s[1..] + t;
      RemoveAppend(s[1..], t, c);
      var head := if s[0] == c then [] else [s[0]];
      calc {
        RemoveAll(s + t, c);
        head + RemoveAll(s[1..] + t, c);
        head + (RemoveAll(s[1..], c) + RemoveAll(t, c));
        (head + RemoveAll(s[1..], c)) + RemoveAll(t, c);
      }
    }
  }

  /** `s.replace(a, b)` for single characters: same length, every `a`
      turned into `b`, every other character kept. */
  function ReplaceAll(s: string, a: char, b: char): (r: string)
    ensures |r| == |s|
    ensures forall i :: 0 <= i < |s| ==> r[i] == if s[i] == a then b else s[i]
  {
    if s == [] then [] else [if s[0] == a then b else s[0]] + ReplaceAll(s[1..], a, b)
  }
}
