/** What the spelling rules make of a name, character by character: where its words begin, and its plural. */
module Words {
  import opened Letters
  import opened Names

  const DIGITS := "0123456789"
  const SMALL := "abcdefghijklmnopqrstuvwxyz"
  const CAPITAL := "ABCDEFGHIJKLMNOPQRSTUVWXYZ"

  lemma InDigits(c: char)
    ensures IsDigit(c) <==> c in DIGITS
  {
    if IsDigit(c) { assert DIGITS[c as int - '0' as int] == c; }
  }

  lemma InSmall(c: char)
    ensures IsLower(c) <==> c in SMALL
  {
    if IsLower(c) { assert SMALL[c as int - 'a' as int] == c; }
  }

  lemma InCapital(c: char)
    ensures IsUpper(c) <==> c in CAPITAL
    ensures Lower(c) as int == if 'A' <= c <= 'Z' then c as int + 0x20 else c as int
  {
    if IsUpper(c) { assert CAPITAL[c as int - 'A' as int] == c; }
  }

  ghost predicate InWords(c: char) {
    c in DIGITS || c in SMALL || c in CAPITAL
  }

  lemma InAlnum(c: char)
    ensures Alnum(c) <==> InWords(c)
  {
    InDigits(c);
    InSmall(c);
    InCapital(c);
  }

  // ------------------------------------------------------------------ where words begin

  /** A letter or digit behind anything else, or a capital behind a small letter or a digit. */
  ghost predicate Begins(value: string, i: nat) {
    i < |value| && InWords(value[i]) &&
    (i == 0 || !InWords(value[i - 1]) ||
     (value[i] in CAPITAL && (value[i - 1] in SMALL || value[i - 1] in DIGITS)))
  }

  lemma BeginsIs(value: string, i: nat)
    requires 0 < i < |value|
    ensures Begins(value, i) <==> Alnum(value[i]) && (!Alnum(value[i - 1]) || Rises(value[i - 1], value[i]))
  {
    InAlnum(value[i]);
    InAlnum(value[i - 1]);
    InCapital(value[i]);
    InSmall(value[i - 1]);
    InDigits(value[i - 1]);
  }

  predicate Rises(c: char, d: char) {
    (IsLower(c) || IsDigit(c)) && IsUpper(d)
  }

  function Gap(c: char, d: char): string {
    if Rises(c, d) then " " else ""
  }

  lemma SpacedCons(s: string)
    requires |s| > 1
    ensures Spaced(s) == [s[0]] + (Gap(s[0], s[1]) + Spaced(s[1..]))
  {
  }

  lemma {:induction false} SpacedEnds(s: string)
    requires s != ""
    ensures Spaced(s) != "" && Spaced(s)[|Spaced(s)| - 1] == s[|s| - 1] && Spaced(s)[0] == s[0]
  {
    if |s| > 1 {
      SpacedEnds(s[1..]);
      SpacedCons(s);
    }
  }

  lemma {:induction false} SpacedConcat(a: string, b: string)
    requires a != "" && b != ""
    ensures Spaced(a + b) == Spaced(a) + (Gap(a[|a| - 1], b[0]) + Spaced(b))
    decreases |a|
  {
    var s := a + b;
    SpacedCons(s);
    if |a| == 1 {
      assert s[1..] == b;
    } else {
      var rest := a[1..];
      assert s[1..] == rest + b;
      SpacedConcat(rest, b);
      SpacedCons(a);
      Regroup([a[0]], Gap(a[0], a[1]), Spaced(rest), Gap(a[|a| - 1], b[0]) + Spaced(b));
    }
  }

  lemma Regroup(a: string, b: string, c: string, d: string)
    ensures a + (b + (c + d)) == (a + (b + c)) + d
  {
  }

  lemma {:induction false} PiecesConcat(x: string, y: string)
    requires x == "" || !Alnum(x[|x| - 1]) || y == "" || !Alnum(y[0])
    ensures Pieces(x + y) == Pieces(x) + Pieces(y)
    decreases |x|
  {
    if x == "" {
      assert x + y == y;
    } else if !Alnum(x[0]) {
      assert (x + y)[1..] == x[1..] + y;
      PiecesConcat(x[1..], y);
    } else {
      PieceFirst(x, y);
      PiecesConcat(x[Leading(x)..], y);
    }
  }

  lemma PieceFirst(x: string, y: string)
    requires x != "" && Alnum(x[0]) && (!Alnum(x[|x| - 1]) || y == "" || !Alnum(y[0]))
    ensures Leading(x) > 0 && Pieces(x + y) == [x[..Leading(x)]] + Pieces(x[Leading(x)..] + y)
  {
    var n := Leading(x);
    var w, more := x[..n], x[n..] + y;
    Apart(x, n, y);
    LeadingOf(w, more);
    PieceIs(w, more);
  }

  lemma Apart(x: string, n: nat, y: string)
    requires n <= |x|
    ensures x + y == x[..n] + (x[n..] + y)
    ensures x[n..] + y != "" ==> (x[n..] + y)[0] == if n < |x| then x[n] else y[0]
  {
  }

  lemma PieceIs(w: string, more: string)
    requires w != "" && Alnum(w[0]) && Leading(w + more) == |w|
    ensures Pieces(w + more) == [w] + Pieces(more)
  {
    var s := w + more;
    assert s[0] == w[0] && s[..|w|] == w && s[|w|..] == more;
  }

  /** A name is cut exactly where its words begin: the words before and those from there on. */
  lemma WordsAreCut(value: string, i: nat)
    requires 0 < i && Begins(value, i)
    ensures Words(value) == Words(value[..i]) + Words(value[i..])
  {
    var a, b := value[..i], value[i..];
    BeginsIs(value, i);
    SpacedConcat(a, b);
    SpacedEnds(a);
    SpacedEnds(b);
    assert value == a + b;
    PiecesApart(Spaced(a), Gap(a[|a| - 1], b[0]), Spaced(b));
    LowerEach(Pieces(Spaced(a)), Pieces(Spaced(b)));
  }

  lemma PiecesApart(x: string, gap: string, y: string)
    requires gap == " " || (gap == "" && (x == "" || y == "" || !Alnum(x[|x| - 1]) || !Alnum(y[0])))
    ensures Pieces(x + (gap + y)) == Pieces(x) + Pieces(y)
  {
    PiecesConcat(x, gap + y);
    if gap == "" { assert gap + y == y; } else { assert (gap + y)[1..] == y; }
  }

  lemma LowerEach(a: seq<string>, b: seq<string>)
    ensures LowerAllOf(a + b) == LowerAllOf(a) + LowerAllOf(b)
  {
  }

  function LowerAllOf(ps: seq<string>): seq<string> {
    seq(|ps|, i requires 0 <= i < |ps| => LowerAll(ps[i]))
  }

  /** Between two such places is one word, its letters and digits in lower case. */
  lemma WordIsCut(value: string, n: nat)
    requires n <= |value| && (forall i :: 0 < i < |value| ==> !Begins(value, i))
    requires forall i :: 0 <= i < |value| ==> (InWords(value[i]) <==> i < n)
    ensures Words(value) == if n == 0 then [] else [LowerAll(value[..n])]
  {
    var w, rest := value[..n], value[n..];
    forall i | 0 <= i < |rest| ensures !Alnum(rest[i]) { InAlnum(rest[i]); }
    assert value == w + rest;
    if n == 0 {
      NoPieces(value);
    } else {
      forall i | 0 <= i < n ensures Alnum(w[i]) { InAlnum(w[i]); }
      forall i | 0 <= i < n - 1 ensures !Rises(w[i], w[i + 1]) { BeginsIs(value, i + 1); }
      assert Hump(w);
      OneWord(w, rest);
    }
  }

  lemma OneWord(w: string, rest: string)
    requires Hump(w) && forall i :: 0 <= i < |rest| ==> !Alnum(rest[i])
    ensures Words(w + rest) == [LowerAll(w)]
  {
    SpacedHump(w);
    OnePiece(w, "");
    assert w + "" == w;
    if rest == "" {
      assert w + rest == w;
    } else {
      SpacedConcat(w, rest);
      SpacedEnds(rest);
      assert Gap(w[|w| - 1], rest[0]) + Spaced(rest) == Spaced(rest);
      PiecesConcat(w, Spaced(rest));
      NoPieces(rest);
    }
  }

  lemma {:induction false} NoPieces(s: string)
    requires forall i :: 0 <= i < |s| ==> !Alnum(s[i])
    ensures Pieces(Spaced(s)) == []
  {
    if |s| > 1 {
      NoPieces(s[1..]);
      assert Spaced(s) == [s[0]] + Spaced(s[1..]);
    }
  }

  // ------------------------------------------------------------------ plurals

  ghost predicate Invariable(word: string) {
    LowerAll(word) in {"data", "news", "equipment", "information", "feedback", "inventory"}
  }

  /** `plural` is the irregular plural of `word`. */
  ghost predicate Irregular(word: string, plural: string) {
    (LowerAll(word), plural) in
      {("person", "people"), ("child", "children"), ("man", "men"), ("woman", "women"), ("mouse", "mice"),
       ("goose", "geese"), ("datum", "data")}
  }

  ghost predicate Ordinary(word: string) {
    !Invariable(word) && forall plural :: !Irregular(word, plural)
  }

  lemma IrregularIs(word: string, plural: string)
    ensures Irregular(word, plural) <==> LowerAll(word) in IRREGULAR && IRREGULAR[LowerAll(word)] == plural
  {
  }

  lemma OrdinaryIs(word: string)
    ensures Ordinary(word) <==> LowerAll(word) !in UNCOUNTABLE && LowerAll(word) !in IRREGULAR
  {
    if LowerAll(word) in IRREGULAR { IrregularIs(word, IRREGULAR[LowerAll(word)]); }
    forall plural | Irregular(word, plural) ensures LowerAll(word) in IRREGULAR { IrregularIs(word, plural); }
  }

  /** The exceptions, whatever their capitals. */
  lemma UnusualPlurals(word: string, plural: string)
    ensures Invariable(word) ==> Pluralize(word) == word
    ensures Irregular(word, plural) ==> Pluralize(word) == plural
  {
    IrregularIs(word, plural);
  }

  /** All other words end in ies, es or s in the plural, by their last letters. */
  lemma UsualPlurals(stem: string, end: char)
    requires Ordinary(stem + [end])
    ensures var word, last := stem + [end], Lower(end);
      var before := if stem == "" then ' ' else Lower(stem[|stem| - 1]);
      Pluralize(word) ==
        if last == 'y' && stem != "" && before !in {'a', 'e', 'i', 'o', 'u'} then stem + "ies"
        else if last in {'s', 'x', 'z'} || (last == 'h' && before in {'c', 's'}) then word + "es"
        else word + "s"
  {
    var word := stem + [end];
    var lower := LowerAll(word);
    OrdinaryIs(word);
    assert word[..|word| - 1] == stem && lower[|lower| - 1] == Lower(end);
    assert EndsWith(lower, "s") <==> Lower(end) == 's';
    assert EndsWith(lower, "x") <==> Lower(end) == 'x';
    assert EndsWith(lower, "z") <==> Lower(end) == 'z';
    if stem != "" {
      var before := Lower(stem[|stem| - 1]);
      assert lower[|lower| - 2] == before;
      assert lower[|lower| - 2..] == [before, Lower(end)];
      assert before in "aeiou" <==> before in {'a', 'e', 'i', 'o', 'u'};
    }
  }
}
