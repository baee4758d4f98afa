/** The JavaScript string operations the program relies on, for a
    one-character separator: `String.prototype.split`, the global
    `replace(/c/g, '')`, and the decimal text of an integer (`String(n)`). */
module Text {

  /** Number of occurrences of `c` in `s`. */
  function Count(s: string, c: char): (n: nat)
    ensures n > 0 <==> c in s
  {
    if s == [] then 0 else (if s[0] == c then 1 else 0) + Count(s[1..], c)
  }

  /** `s.split(c)`: the maximal pieces of `s` between occurrences of `c`.
      There is always one piece more than there are separators, and no piece
      contains the separator. */
  function Split(s: string, c: char): (parts: seq<string>)
    ensures |parts| == Count(s, c) + 1
    ensures forall i :: 0 <= i < |parts| ==> c !in parts[i]
    decreases |s|
  {
    if s == [] then [""]
    else if s[0] == c then [""] + Split(s[1..], c)
    else
      var rest := Split(s[1..], c);
      [[s[0]] + rest[0]] + rest[1..]
  }

  /** `parts.join(c)`; the inverse of `Split`. */
  function Join(parts: seq<string>, c: char): (s: string)
    requires |parts| >= 1
  {
    if |parts| == 1 then parts[0] else parts[0] + [c] + Join(parts[1..], c)
  }

  /** A join contains another character only where one of its pieces does. */
  lemma {:induction false} JoinAvoids(parts: seq<string>, c: char, d: char)
    requires |parts| >= 1 && d != c
    requires forall i :: 0 <= i < |parts| ==> d !in parts[i]
    ensures d !in Join(parts, c)
    decreases |parts|
  {
    if |parts| > 1 {
      JoinAvoids(parts[1..], c, d);
    }
  }

  /** Splitting at the first separator peels off the text before it. */
  lemma {:induction false} SplitAtFirst(a: string, c: char, b: string)
    requires c !in a
    ensures Split(a + [c] + b, c) == [a] + Split(b, c)
    decreases |a|
  {
    if a == [] {
      assert a + [c] + b == [c] + b;
      assert ([c] + b)[1..] == b;
    } else {
      assert (a + [c] + b)[0] == a[0];
      assert (a + [c] + b)[1..] == a[1..] + [c] + b;
      SplitAtFirst(a[1..], c, b);
      assert [a[0]] + a[1..] == a;
    }
  }

  /** Text without the separator splits into itself alone. */
  lemma {:induction false} SplitWithoutSeparator(a: string, c: char)
    requires c !in a
    ensures Split(a, c) == [a]
    decreases |a|
  {
    if a != [] {
      SplitWithoutSeparator(a[1..], c);
      assert [a[0]] + a[1..] == a;
    }
  }

  /** The first piece of `raw + rest` is `raw` when `rest` is empty or starts
      with the separator. */
  lemma SplitFirstPiece(raw: string, c: char, rest: string)
    requires c !in raw
    requires rest == [] || rest[0] == c
    ensures Split(raw + rest, c)[0] == raw
    ensures rest == [] ==> Split(raw + rest, c) == [raw]
  {
    if rest == [] {
      assert raw + rest == raw;
      SplitWithoutSeparator(raw, c);
    } else {
      assert raw + rest == raw + [c] + rest[1..];
      SplitAtFirst(raw, c, rest[1..]);
    }
  }

  /** Splitting at any one separator splits the two sides independently. */
  lemma {:induction false} SplitConcat(x: string, c: char, y: string)
    ensures Split(x + [c] + y, c) == Split(x, c) + Split(y, c)
    decreases |x|
  {
    if x == [] {
      assert x + [c] + y == [c] + y;
      assert ([c] + y)[1..] == y;
    } else {
      SplitConcat(x[1..], c, y);
      SplitConcatStep(x, c, y);
    }
  }

  lemma SplitConcatStep(x: string, c: char, y: string)
    requires x != []
    requires Split(x[1..] + [c] + y, c) == Split(x[1..], c) + Split(y, c)
    ensures Split(x + [c] + y, c) == Split(x, c) + Split(y, c)
  {
    var z := x + ([c] + y);
    HeadTail(x, [c] + y);
    Assoc3(x, [c], y);
    Assoc3(x[1..], [c], y);
    if x[0] == c {
      SeparatorStep(z, x, c, Split(y, c));
    } else {
      OtherStep(z, x, c, Split(y, c));
    }
  }

  lemma SeparatorStep(z: string, x: string, c: char, b: seq<string>)
    requires x != [] && z != [] && z[0] == c && x[0] == c
    requires Split(z[1..], c) == Split(x[1..], c) + b
    ensures Split(z, c) == Split(x, c) + b
  {
    ConsAssoc("", Split(x[1..], c), b);
  }

  lemma OtherStep(z: string, x: string, c: char, b: seq<string>)
    requires x != [] && z != [] && z[0] == x[0] && x[0] != c
    requires Split(z[1..], c) == Split(x[1..], c) + b
    ensures Split(z, c) == Split(x, c) + b
  {
    var a := Split(x[1..], c);
    HeadTail(a, b);
    ConsAssoc([x[0]] + a[0], a[1..], b);
  }

  /* Solver hints: identities on sequence concatenation that Dafny proves on
     its own, stated as lemmas so that the split proofs above put in scope
     exactly the instance they need. */

  lemma Assoc3<T>(a: seq<T>, b: seq<T>, d: seq<T>)
    ensures a + b + d == a + (b + d)
  {
  }

  lemma HeadTail<T>(a: seq<T>, b: seq<T>)
    requires a != []
    ensures (a + b)[0] == a[0] && (a + b)[1..] == a[1..] + b
  {
  }

  lemma ConsAssoc<T>(h: T, a: seq<T>, b: seq<T>)
    ensures [h] + (a + b) == ([h] + a) + b
  {
  }

  /** Round trip one way: splitting a join gives the pieces back, provided no
      piece contains the separator. */
  lemma {:induction false} SplitJoin(parts: seq<string>, c: char)
    requires |parts| >= 1
    requires forall i :: 0 <= i < |parts| ==> c !in parts[i]
    ensures Split(Join(parts, c), c) == parts
    decreases |parts|
  {
    if |parts| == 1 {
      SplitWithoutSeparator(parts[0], c);
    } else {
      SplitJoin(parts[1..], c);
      SplitAtFirst(parts[0], c, Join(parts[1..], c));
      assert [parts[0]] + parts[1..] == parts;
    }
  }

  lemma JoinPrepend(ch: char, parts: seq<string>, c: char)
    requires |parts| >= 1
    ensures Join([[ch] + parts[0]] + parts[1..], c) == [ch] + Join(parts, c)
  {
    var q := [[ch] + parts[0]] + parts[1..];
    assert q[0] == [ch] + parts[0] && q[1..] == parts[1..];
  }

  /** Round trip the other way: joining the pieces of a split restores the text. */
  lemma {:induction false} JoinSplit(s: string, c: char)
    ensures Join(Split(s, c), c) == s
    decreases |s|
  {
    if s != [] {
      JoinSplit(s[1..], c);
      var rest := Split(s[1..], c);
      if s[0] == c {
        var parts := [""] + rest;
        assert parts[0] == "" && parts[1..] == rest;
        assert Join(parts, c) == [c] + Join(rest, c);
      } else {
        JoinPrepend(s[0], rest, c);
      }
      assert s == [s[0]] + s[1..];
    }
  }

  /** `s.replace(/c/g, '')`: `s` with every occurrence of `c` removed. */
  function RemoveAll(s: string, c: char): (r: string)
    ensures c !in r
  {
    if s == [] then [] else (if s[0] == c then [] else [s[0]]) + RemoveAll(s[1..], c)
  }

  /** Exactly the occurrences of `c` are removed. */
  lemma {:induction false} RemoveAllLength(s: string, c: char)
    ensures |RemoveAll(s, c)| == |s| - Count(s, c)
    decreases |s|
  {
    if s != [] {
      RemoveAllLength(s[1..], c);
    }
  }

  /** Removing `c` leaves text without `c` unchanged ... */
  lemma {:induction false} RemoveAllAbsent(s: string, c: char)
    requires c !in s
    ensures RemoveAll(s, c) == s
    decreases |s|
  {
    if s != [] {
      RemoveAllAbsent(s[1..], c);
      assert [s[0]] + s[1..] == s;
    }
  }

  /** ... and works piece by piece, so every other character is kept, in order. */
  lemma {:induction false} RemoveAllAppend(a: string, b: string, c: char)
    ensures RemoveAll(a + b, c) == RemoveAll(a, c) + RemoveAll(b, c)
    decreases |a|
  {
    if a == [] {
      assert a + b == b;
    } else {
      assert (a + b)[0] == a[0];
      assert (a + b)[1..] == a[1..] + b;
      RemoveAllAppend(a[1..], b, c);
    }
  }

  /** The decimal digit character for `d`. */
  function DigitChar(d: int): (ch: char)
    requires 0 <= d <= 9
    ensures '0' <= ch <= '9'
    ensures ch as int - '0' as int == d
  {
    (48 + d) as char
  }

  /** JavaScript's decimal text of a non-negative integer, without leading zeros. */
  function NatStr(n: nat): (s: string)
    ensures |s| >= 1
    ensures forall i :: 0 <= i < |s| ==> '0' <= s[i] <= '9'
    ensures n > 0 ==> s[0] != '0'
  {
    if n < 10 then [DigitChar(n)] else NatStr(n / 10) + [DigitChar(n % 10)]
  }

  /** JavaScript's decimal text of an integer (`String(n)` for a safe integer). */
  function IntStr(n: int): (s: string)
    ensures |s| >= 1
    ensures forall i :: 0 <= i < |s| ==> s[i] == '-' || '0' <= s[i] <= '9'
  {
    if n < 0 then "-" + NatStr(-n) else NatStr(n)
  }

  /** The value of a string of decimal digits. */
  function DigitsValue(s: string): int
  {
    if s == [] then 0 else DigitsValue(s[..|s| - 1]) * 10 + (s[|s| - 1] as int - '0' as int)
  }

  /** The value a decimal text denotes, with an optional leading minus sign. */
  function IntValue(s: string): int
  {
    if s != [] && s[0] == '-' then -DigitsValue(s[1..]) else DigitsValue(s)
  }

  lemma {:induction false} NatStrValue(n: nat)
    ensures DigitsValue(NatStr(n)) == n
  {
    if n >= 10 {
      NatStrValue(n / 10);
      var s := NatStr(n / 10) + [DigitChar(n % 10)];
      assert s[..|s| - 1] == NatStr(n / 10);
    }
  }

  /** Reading back the decimal text of an integer gives the integer. */
  lemma IntStrValue(n: int)
    ensures IntValue(IntStr(n)) == n
  {
    if n < 0 {
      NatStrValue(-n);
      assert IntStr(n)[1..] == NatStr(-n);
    } else {
      NatStrValue(n);
    }
  }
}
