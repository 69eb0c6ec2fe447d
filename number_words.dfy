/** The amount-in-words routine of the receipt generator: the Python function
    `numberToWords` embedded in the bill template. It spells a whole rupee
    amount in the Indian numbering system, Crore (10^7), Lakh (10^5),
    Thousand and Hundred, then the last two digits, looking every word up in
    three tables.

    The model keeps the source's step-by-step shape in a method
    (`NumberToWords`), specifies it by place values (`Spell`), and gives the
    spelled words a meaning (`Value`) so that the spelling can be checked
    against the amount it spells. */
module NumberWords {
  import opened Text

  const Ones: seq<string> := ["", "One", "Two", "Three", "Four", "Five", "Six", "Seven", "Eight", "Nine"]
  const Tens: seq<string> := ["", "", "Twenty", "Thirty", "Forty", "Fifty", "Sixty", "Seventy", "Eighty", "Ninety"]
  const Teens: seq<string> := ["Ten", "Eleven", "Twelve", "Thirteen", "Fourteen", "Fifteen", "Sixteen", "Seventeen", "Eighteen", "Nineteen"]

  const CroreValue: nat := 10000000
  const LakhValue: nat := 100000
  const ThousandValue: nat := 1000
  const HundredValue: nat := 100

  // ---------------------------------------------------------------------------
  // Words

  datatype Scale = Crore | Lakh | Thousand | Hundred

  function ScaleValue(s: Scale): nat {
    match s
    case Crore => CroreValue
    case Lakh => LakhValue
    case Thousand => ThousandValue
    case Hundred => HundredValue
  }

  function ScaleName(s: Scale): string {
    match s
    case Crore => "Crore"
    case Lakh => "Lakh"
    case Thousand => "Thousand"
    case Hundred => "Hundred"
  }

  /** One word of a spelled amount, by the table entry it comes from:
      `Unit(d)` is `ones[d]`, `Ten(d)` is `tens[d]`, `Teen(d)` is `teens[d]`. */
  datatype Word = Unit(d: nat) | Ten(d: nat) | Teen(d: nat) | ScaleWord(s: Scale)

  /** The table entries the source can emit (never an empty entry). */
  predicate ValidWord(w: Word) {
    match w
    case Unit(d) => 1 <= d <= 9
    case Ten(d) => 2 <= d <= 9
    case Teen(d) => d <= 9
    case ScaleWord(_) => true
  }

  predicate AllValid(ws: seq<Word>) {
    forall i :: 0 <= i < |ws| ==> ValidWord(ws[i])
  }

  function Render(w: Word): string
    requires ValidWord(w)
  {
    match w
    case Unit(d) => Ones[d]
    case Ten(d) => Tens[d]
    case Teen(d) => Teens[d]
    case ScaleWord(s) => ScaleName(s)
  }

  function RenderAll(ws: seq<Word>): (r: seq<string>)
    requires AllValid(ws)
    ensures |r| == |ws|
    ensures forall i :: 0 <= i < |ws| ==> r[i] == Render(ws[i])
  {
    seq(|ws|, i requires 0 <= i < |ws| => Render(ws[i]))
  }

  /** The phrase for a list of words: the words separated by single spaces. */
  function Phrase(ws: seq<Word>): string
    requires AllValid(ws)
  {
    Join(RenderAll(ws), ' ')
  }

  // ---------------------------------------------------------------------------
  // What a list of words means

  /** Reading state: `total` is what completed groups add up to, `pending`
      the number spoken since the last scale word. */
  datatype Tally = Tally(total: int, pending: int)

  /** Reads one word. A Lakh, Thousand or Hundred multiplies the pending
      number; a Crore multiplies everything read so far, so that a count of
      crores may itself contain Lakh, Thousand and Hundred. */
  function Apply(t: Tally, w: Word): Tally {
    match w
    case Unit(d) => Tally(t.total, t.pending + d)
    case Ten(d) => Tally(t.total, t.pending + 10 * d)
    case Teen(d) => Tally(t.total, t.pending + 10 + d)
    case ScaleWord(s) =>
      if s == Crore then Tally((t.total + t.pending) * CroreValue, 0)
      else Tally(t.total + t.pending * ScaleValue(s), 0)
  }

  function Run(t: Tally, ws: seq<Word>): Tally
    decreases |ws|
  {
    if ws == [] then t else Run(Apply(t, ws[0]), ws[1..])
  }

  /** The number a list of words denotes. */
  function Value(ws: seq<Word>): int {
    var t := Run(Tally(0, 0), ws);
    t.total + t.pending
  }

  lemma {:induction false} RunAppend(t: Tally, a: seq<Word>, b: seq<Word>)
    ensures Run(t, a + b) == Run(Run(t, a), b)
    decreases |a|
  {
    if a != [] {
      assert (a + b)[0] == a[0];
      assert (a + b)[1..] == a[1..] + b;
      RunAppend(Apply(t, a[0]), a[1..], b);
    } else {
      assert a + b == b;
    }
  }

  // ---------------------------------------------------------------------------
  // Place values

  function CroreCount(n: nat): nat { n / CroreValue }
  function LakhCount(n: nat): nat { n / LakhValue % 100 }
  function ThousandCount(n: nat): nat { n / ThousandValue % 100 }
  function HundredCount(n: nat): nat { n / HundredValue % 10 }

  /** A non-negative amount is the sum of its Indian place values. */
  lemma PlaceValues(n: nat)
    ensures n == CroreCount(n) * CroreValue + LakhCount(n) * LakhValue
              + ThousandCount(n) * ThousandValue + HundredCount(n) * HundredValue + n % 100
    ensures n % CroreValue == LakhCount(n) * LakhValue
              + ThousandCount(n) * ThousandValue + HundredCount(n) * HundredValue + n % 100
  {
    Remainders(n);
    var x, y, z := n % CroreValue, n % LakhValue, n % ThousandValue;
    assert x == LakhValue * (x / LakhValue) + x % LakhValue;
    assert y == ThousandValue * (y / ThousandValue) + y % ThousandValue;
    assert z == HundredValue * (z / HundredValue) + z % HundredValue;
    assert n == CroreValue * (n / CroreValue) + x;
  }

  /** What is left after each `%=` step: the amount below that group's
      divisor, whose next quotient is the next group's count. */
  lemma Remainders(n: nat)
    ensures n % CroreValue / LakhValue == LakhCount(n) && n % CroreValue % LakhValue == n % LakhValue
    ensures n % LakhValue / ThousandValue == ThousandCount(n) && n % LakhValue % ThousandValue == n % ThousandValue
    ensures n % ThousandValue / HundredValue == HundredCount(n) && n % ThousandValue % HundredValue == n % HundredValue
  {
    CroreRemainder(n);
    LakhRemainder(n);
    ThousandRemainder(n);
  }

  lemma CroreRemainder(n: nat)
    ensures n % 10000000 / 100000 == n / 100000 % 100 && n % 10000000 % 100000 == n % 100000
  {
  }

  lemma LakhRemainder(n: nat)
    ensures n % 100000 / 1000 == n / 1000 % 100 && n % 100000 % 1000 == n % 1000
  {
  }

  lemma ThousandRemainder(n: nat)
    ensures n % 1000 / 100 == n / 100 % 10 && n % 1000 % 100 == n % 100
  {
  }

  /** The source indexes `ones` with each group count; the lookups succeed
      exactly when every count it uses is a single digit. */
  predicate InRange(n: int) {
    n <= 0 || (CroreCount(n) < 10 && LakhCount(n) < 10 && ThousandCount(n) < 10)
  }

  // ---------------------------------------------------------------------------
  // The spelling

  /** The words for 0..99: a tens word and a units word, a teen, or a units word. */
  function TwoDigitWords(t: nat): (ws: seq<Word>)
    requires t < 100
    ensures AllValid(ws)
    ensures |ws| <= 2
    ensures ws == [] <==> t == 0
  {
    if t >= 20 then [Ten(t / 10)] + (if t % 10 > 0 then [Unit(t % 10)] else [])
    else if t >= 10 then [Teen(t - 10)]
    else if t > 0 then [Unit(t)]
    else []
  }

  /** A single-digit count followed by its scale word, or nothing for a zero count. */
  function Group(count: nat, s: Scale): (ws: seq<Word>)
    requires count < 10
    ensures AllValid(ws)
  {
    if count == 0 then [] else [Unit(count), ScaleWord(s)]
  }

  /** The words the source emits for an amount whose lookups succeed. */
  function WordsFor(n: nat): (ws: seq<Word>)
    requires InRange(n)
    ensures AllValid(ws)
  {
    Group(CroreCount(n), Crore) + Group(LakhCount(n), Lakh) + Group(ThousandCount(n), Thousand)
      + Group(HundredCount(n), Hundred) + TwoDigitWords(n % 100)
  }

  /** What the source produces: the text, or the index that is out of range
      in the first failing `ones` lookup (Python raises IndexError). */
  datatype Spelling = Words(text: string) | IndexError(index: int)

  /** The specification of `numberToWords`, by place values. */
  function Spell(n: int): Spelling {
    if n == 0 then Words("Zero")
    else if n < 0 then Words("")
    else if CroreCount(n) >= 10 then IndexError(CroreCount(n))
    else if LakhCount(n) >= 10 then IndexError(LakhCount(n))
    else if ThousandCount(n) >= 10 then IndexError(ThousandCount(n))
    else Words(Phrase(WordsFor(n)))
  }

  // ---------------------------------------------------------------------------
  // The routine as written

  /** The text accumulated by `result += word + ' '`: every word followed by one space. */
  function Spaced(strs: seq<string>): (r: string)
    decreases |strs|
  {
    if strs == [] then "" else Spaced(strs[..|strs| - 1]) + Last(strs) + " "
  }

  lemma {:induction false} SpacedAppend(a: seq<string>, b: seq<string>)
    ensures Spaced(a + b) == Spaced(a) + Spaced(b)
    decreases |b|
  {
    if b == [] {
      assert a + b == a;
    } else {
      var b' := b[..|b| - 1];
      assert (a + b)[..|a + b| - 1] == a + b';
      SpacedAppend(a, b');
    }
  }

  /** Appending words to the spoken list appends their spaced text. */
  lemma SaidMore(said: seq<Word>, more: seq<Word>)
    requires AllValid(said) && AllValid(more)
    ensures AllValid(said + more)
    ensures Spaced(RenderAll(said + more)) == Spaced(RenderAll(said)) + Spaced(RenderAll(more))
  {
    assert RenderAll(said + more) == RenderAll(said) + RenderAll(more);
    SpacedAppend(RenderAll(said), RenderAll(more));
  }

  predicate IsWordText(s: string) {
    |s| > 0 && forall i :: 0 <= i < |s| ==> IsLetter(s[i])
  }

  lemma RenderIsWordText(w: Word)
    requires ValidWord(w)
    ensures IsWordText(Render(w))
  {
    match w
    case Unit(d) => UnitIsWordText(d);
    case Ten(d) => TenIsWordText(d);
    case Teen(d) => TeenIsWordText(d);
    case ScaleWord(s) =>
  }

  lemma UnitIsWordText(d: nat)
    requires 1 <= d <= 9
    ensures IsWordText(Ones[d])
  {
    if d == 1 {} else if d == 2 {} else if d == 3 {} else if d == 4 {} else if d == 5 {}
    else if d == 6 {} else if d == 7 {} else if d == 8 {} else {}
  }

  lemma TenIsWordText(d: nat)
    requires 2 <= d <= 9
    ensures IsWordText(Tens[d])
  {
    if d == 2 {} else if d == 3 {} else if d == 4 {} else if d == 5 {}
    else if d == 6 {} else if d == 7 {} else if d == 8 {} else {}
  }

  lemma TeenIsWordText(d: nat)
    requires d <= 9
    ensures IsWordText(Teens[d])
  {
    if d == 0 {} else if d == 1 {} else if d == 2 {} else if d == 3 {} else if d == 4 {}
    else if d == 5 {} else if d == 6 {} else if d == 7 {} else if d == 8 {} else {}
  }

  /** A joined phrase of words starts and ends with a letter. */
  lemma {:induction false} JoinEnds(strs: seq<string>)
    requires |strs| >= 1
    requires forall i :: 0 <= i < |strs| ==> IsWordText(strs[i])
    ensures var j := Join(strs, ' ');
      |j| > 0 && IsLetter(j[0]) && IsLetter(j[|j| - 1])
    decreases |strs|
  {
    assert IsWordText(Last(strs));
    if |strs| > 1 {
      var init := strs[..|strs| - 1];
      assert forall i :: 0 <= i < |init| ==> IsWordText(init[i]) by {
        forall i | 0 <= i < |init| ensures IsWordText(init[i]) { assert init[i] == strs[i]; }
      }
      JoinEnds(init);
    } else {
      assert IsWordText(strs[0]);
    }
  }

  lemma {:induction false} SpacedIsJoinPlusSpace(strs: seq<string>)
    requires |strs| >= 1
    ensures Spaced(strs) == Join(strs, ' ') + " "
    decreases |strs|
  {
    if |strs| > 1 {
      var init := strs[..|strs| - 1];
      SpacedIsJoinPlusSpace(init);
    } else {
      assert strs[..0] == [];
    }
  }

  lemma LetterIsNotWhitespace(c: char)
    requires IsLetter(c)
    ensures !IsPyWhitespace(c)
  {
  }

  lemma TrimStartKeeps(s: string)
    requires s != [] && !IsPyWhitespace(s[0])
    ensures TrimStart(s) == s
  {
  }

  lemma TrimEndDropsSpace(j: string)
    requires j != [] && IsLetter(j[|j| - 1])
    ensures TrimEnd(j + " ") == j
  {
    var s := j + " ";
    assert s[..|s| - 1] == j;
    assert IsPyWhitespace(s[|s| - 1]);
    LetterIsNotWhitespace(j[|j| - 1]);
  }

  /** Python's `result.strip()` on the spaced words is the words joined by single spaces. */
  lemma StripSpaced(strs: seq<string>)
    requires forall i :: 0 <= i < |strs| ==> IsWordText(strs[i])
    ensures Strip(Spaced(strs)) == Join(strs, ' ')
  {
    if |strs| > 0 {
      SpacedIsJoinPlusSpace(strs);
      JoinEnds(strs);
      var j := Join(strs, ' ');
      assert IsLetter(j[0]) && IsLetter(j[|j| - 1]);
      LetterIsNotWhitespace(j[0]);
      assert (j + " ")[0] == j[0];
      TrimStartKeeps(j + " ");
      TrimEndDropsSpace(j);
    }
  }

  lemma RenderedAreWords(ws: seq<Word>)
    requires AllValid(ws)
    ensures forall i :: 0 <= i < |ws| ==> IsWordText(RenderAll(ws)[i])
  {
    forall i | 0 <= i < |ws| ensures IsWordText(RenderAll(ws)[i]) {
      RenderIsWordText(ws[i]);
    }
  }

  /** Saying one more group: the accumulated text grows by the count's word,
      a space, the scale's name and a space. */
  lemma SayGroup(said: seq<Word>, result: string, q: nat, s: Scale)
    requires AllValid(said) && result == Spaced(RenderAll(said))
    requires 1 <= q <= 9
    ensures AllValid(said + [Unit(q), ScaleWord(s)])
    ensures result + Ones[q] + " " + ScaleName(s) + " " == Spaced(RenderAll(said + [Unit(q), ScaleWord(s)]))
  {
    var said1 := said + [Unit(q)];
    SayWord(said, result, Unit(q));
    SayWord(said1, result + Ones[q] + " ", ScaleWord(s));
    assert said1 + [ScaleWord(s)] == said + [Unit(q), ScaleWord(s)];
  }

  /** Saying one more word from the last two digits. */
  lemma SayWord(said: seq<Word>, result: string, w: Word)
    requires AllValid(said) && result == Spaced(RenderAll(said))
    requires ValidWord(w)
    ensures AllValid(said + [w])
    ensures result + Render(w) + " " == Spaced(RenderAll(said + [w]))
  {
    SaidMore(said, [w]);
    var x := Render(w);
    assert RenderAll([w]) == [x];
    assert [x][..0] == [];
    assert Spaced([x]) == x + " ";
    assert result + (x + " ") == result + x + " ";
  }

  /** The first step: a positive amount reaches the Crore group iff it has crores. */
  lemma CroreStep(n: nat)
    requires n > 0
    ensures (n >= CroreValue) == (CroreCount(n) > 0)
    ensures n >= CroreValue ==> n / CroreValue == CroreCount(n)
    ensures n < CroreValue ==> n == n % CroreValue
  {
  }

  /** After `n %= 10000000`: the Lakh group is reached iff the amount has lakhs. */
  lemma LakhStep(n: nat, m: int)
    requires m == n % CroreValue
    ensures (m >= LakhValue) == (LakhCount(n) > 0)
    ensures m >= LakhValue ==> m / LakhValue == LakhCount(n) && m % LakhValue == n % LakhValue
    ensures m < LakhValue ==> m == n % LakhValue
  {
    CroreRemainder(n);
  }

  /** After `n %= 100000`: the Thousand group is reached iff the amount has thousands. */
  lemma ThousandStep(n: nat, m: int)
    requires m == n % LakhValue
    ensures (m >= ThousandValue) == (ThousandCount(n) > 0)
    ensures m >= ThousandValue ==> m / ThousandValue == ThousandCount(n) && m % ThousandValue == n % ThousandValue
    ensures m < ThousandValue ==> m == n % ThousandValue
  {
    LakhRemainder(n);
  }

  /** After `n %= 1000`: the Hundred group is reached iff the amount has hundreds. */
  lemma HundredStep(n: nat, m: int)
    requires m == n % ThousandValue
    ensures (m >= HundredValue) == (HundredCount(n) > 0)
    ensures m >= HundredValue ==> m / HundredValue == HundredCount(n) && m % HundredValue == n % HundredValue
    ensures m < HundredValue ==> m == n % HundredValue
  {
    ThousandRemainder(n);
  }

  /** The scales in the order the source visits them. */
  const Order: seq<Scale> := [Crore, Lakh, Thousand, Hundred]

  function Count(n: nat, s: Scale): nat {
    match s
    case Crore => CroreCount(n)
    case Lakh => LakhCount(n)
    case Thousand => ThousandCount(n)
    case Hundred => HundredCount(n)
  }

  /** The words of the first `k` groups, when their counts are single digits. */
  function GroupsThrough(n: nat, k: nat): (ws: seq<Word>)
    requires k <= 4
    requires forall i :: 0 <= i < k ==> Count(n, Order[i]) < 10
    ensures AllValid(ws)
  {
    if k == 0 then [] else GroupsThrough(n, k - 1) + Group(Count(n, Order[k - 1]), Order[k - 1])
  }

  /** The state of `numberToWords` after its first `k` group steps: the
      remaining amount `m` is below the last divisor used, and `result` is the
      spaced text of the words said so far. */
  ghost predicate Done(n: int, k: nat, m: int, said: seq<Word>, result: string)
    requires k <= 4
  {
    && AllValid(said) && result == Spaced(RenderAll(said))
    && (n < 0 ==> m == n && said == [])
    && (n > 0 ==>
          && (k == 0 ==> m == n)
          && (k > 0 ==> m == n % ScaleValue(Order[k - 1]))
          && (forall i :: 0 <= i < k ==> Count(n, Order[i]) < 10)
          && said == GroupsThrough(n, k))
  }

  /** What a group step sees: whether the remaining amount reaches the
      divisor, and that the quotient is the group's count. */
  lemma StepArithmetic(n: nat, k: nat, m: int)
    requires k < 4 && n > 0
    requires k == 0 ==> m == n
    requires k > 0 ==> m == n % ScaleValue(Order[k - 1])
    ensures var d := ScaleValue(Order[k]);
      && (m >= d) == (Count(n, Order[k]) > 0)
      && (m >= d ==> m / d == Count(n, Order[k]) && m % d == n % d)
      && (m < d ==> m == n % d)
  {
    if k == 0 {
      CroreStep(n);
    } else if k == 1 {
      LakhStep(n, m);
    } else if k == 2 {
      ThousandStep(n, m);
    } else {
      HundredStep(n, m);
    }
  }

  /** When the first `k` counts fit and the next does not, the source fails on that lookup. */
  lemma FirstFailure(n: nat, k: nat)
    requires k < 3 && n > 0
    requires forall i :: 0 <= i < k ==> Count(n, Order[i]) < 10
    requires Count(n, Order[k]) >= 10
    ensures Spell(n) == IndexError(Count(n, Order[k]))
  {
    if k == 2 {
      assert Count(n, Order[0]) < 10 && Count(n, Order[1]) < 10;
    } else if k == 1 {
      assert Count(n, Order[0]) < 10;
    }
  }

  /** One of the four group steps of the source,
      `if n >= d: result += ones[n // d] + ' Name '; n %= d`,
      where the `ones` lookup fails for a quotient of 10 or more. */
  method GroupStep(ghost n: int, ghost k: nat, m: int, result: string, s: Scale, ghost said: seq<Word>)
      returns (m': int, result': string, failure: Option<int>, ghost said': seq<Word>)
    requires k < 4 && s == Order[k] && n != 0
    requires Done(n, k, m, said, result)
    ensures failure.None? ==> Done(n, k + 1, m', said', result')
    ensures failure.Some? ==> n > 0 && Spell(n) == IndexError(failure.value)
  {
    var d := ScaleValue(s);
    if n > 0 {
      StepArithmetic(n, k, m);
    }
    m', result', failure, said' := m, result, None, said;
    if m >= d {
      var q := m / d;
      if q >= |Ones| {
        FirstFailure(n, k);
        failure := Some(q);
        return;
      }
      SayGroup(said, result, q, s);
      result' := result + Ones[q] + " " + ScaleName(s) + " ";
      said' := said + [Unit(q), ScaleWord(s)];
      m' := m % d;
    }
    if n > 0 {
      assert said' == GroupsThrough(n, k + 1);
    }
  }

  /** The last two digits: `tens` for 20..99 then the units digit, or a
      `teens` entry for 10..19 (after which nothing more is said), or the units digit. */
  method LastTwoDigits(ghost n: int, m: int, result: string, ghost said: seq<Word>)
      returns (result': string, ghost said': seq<Word>)
    requires n != 0 && Done(n, 4, m, said, result)
    ensures AllValid(said') && result' == Spaced(RenderAll(said'))
    ensures n > 0 ==> said' == GroupsThrough(n, 4) + TwoDigitWords(n % 100)
    ensures n < 0 ==> said' == []
  {
    assert n > 0 ==> m == n % 100;
    ghost var tail: seq<Word>;
    result', tail := SayLastTwoDigits(said, result, m);
    said' := said + tail;
  }

  /** `result` is the spaced text of the words said so far. */
  ghost predicate Said(said: seq<Word>, tail: seq<Word>, result: string) {
    AllValid(said + tail) && result == Spaced(RenderAll(said + tail))
  }

  /** `result += word + ' '` for one word of the last two digits, `text`
      being the table entry the source looks up for it. */
  method SayOne(ghost said: seq<Word>, ghost tail: seq<Word>, result: string, ghost w: Word, text: string)
      returns (result': string, ghost tail': seq<Word>)
    requires Said(said, tail, result)
    requires ValidWord(w) && text == Render(w)
    ensures tail' == tail + [w]
    ensures Said(said, tail', result')
  {
    SayWord(said + tail, result, w);
    result' := result + text + " ";
    tail' := tail + [w];
    assert said + tail + [w] == said + tail';
  }

  /** The text of the last two digits `t` (the whole remaining amount when it is negative). */
  method SayLastTwoDigits(ghost said: seq<Word>, result: string, t0: int)
      returns (result': string, ghost tail: seq<Word>)
    requires AllValid(said) && result == Spaced(RenderAll(said))
    requires t0 < 100
    ensures Said(said, tail, result')
    ensures t0 >= 0 ==> tail == TwoDigitWords(t0)
    ensures t0 < 0 ==> tail == []
  {
    var t := t0;
    result', tail := result, [];
    assert said + tail == said;
    assert Said(said, tail, result');
    if t >= 20 {
      result', tail := SayOne(said, tail, result', Ten(t / 10), Tens[t / 10]);
      t := t % 10;
      assert tail == [Ten(t0 / 10)];
    }
    ghost var upper := tail;
    assert t0 >= 20 ==> t == t0 % 10 && upper == [Ten(t0 / 10)];
    assert t0 < 20 ==> t == t0 && upper == [];
    if t >= 10 {
      result', tail := SayOne(said, tail, result', Teen(t - 10), Teens[t - 10]);
      t := 0;
      assert tail == [Teen(t0 - 10)];
    }
    if t > 0 {
      result', tail := SayOne(said, tail, result', Unit(t), Ones[t]);
      assert tail == upper + [Unit(t)];
    }
  }

  lemma WordsForGroups(n: nat)
    requires n > 0 && InRange(n)
    ensures forall i :: 0 <= i < 4 ==> Count(n, Order[i]) < 10
    ensures WordsFor(n) == GroupsThrough(n, 4) + TwoDigitWords(n % 100)
  {
    assert HundredCount(n) < 10;
    assert forall i :: 0 <= i < 4 ==> Count(n, Order[i]) < 10 by {
      assert Count(n, Order[0]) < 10 && Count(n, Order[1]) < 10;
      assert Count(n, Order[2]) < 10 && Count(n, Order[3]) < 10;
    }
    var c, l, t, h := Group(CroreCount(n), Crore), Group(LakhCount(n), Lakh),
      Group(ThousandCount(n), Thousand), Group(HundredCount(n), Hundred);
    assert GroupsThrough(n, 0) == [];
    assert GroupsThrough(n, 1) == [] + c;
    assert GroupsThrough(n, 2) == [] + c + l;
    assert GroupsThrough(n, 3) == [] + c + l + t;
    assert GroupsThrough(n, 4) == [] + c + l + t + h;
    assert [] + c + l + t + h == c + l + t + h;
  }

  /** `numberToWords` as written: the amount is reduced group by group
      with `%=`, each group's count indexing `ones`; a count of 10 or more
      is an out-of-range lookup, returned as `IndexError`. The result is the
      accumulated text with Python's `strip()` applied. */
  method NumberToWords(n: int) returns (r: Spelling)
    ensures r == Spell(n)
  {
    if n == 0 {
      return Words("Zero");
    }
    var m, result := n, "";
    ghost var said: seq<Word> := [];
    var failure: Option<int>;
    m, result, failure, said := GroupStep(n, 0, m, result, Crore, said);
    if failure.Some? {
      return IndexError(failure.value);
    }
    m, result, failure, said := GroupStep(n, 1, m, result, Lakh, said);
    if failure.Some? {
      return IndexError(failure.value);
    }
    m, result, failure, said := GroupStep(n, 2, m, result, Thousand, said);
    if failure.Some? {
      return IndexError(failure.value);
    }
    m, result, failure, said := GroupStep(n, 3, m, result, Hundred, said);
    if failure.Some? {
      return IndexError(failure.value);
    }
    result, said := LastTwoDigits(n, m, result, said);
    FinishSpelling(n, said, result);
    r := Words(Strip(result));
  }

  /** Once every word is said, stripping the text gives the specified spelling. */
  lemma FinishSpelling(n: int, said: seq<Word>, result: string)
    requires n != 0 && AllValid(said) && result == Spaced(RenderAll(said))
    requires n > 0 ==>
      (forall i :: 0 <= i < 4 ==> Count(n, Order[i]) < 10) && said == GroupsThrough(n, 4) + TwoDigitWords(n % 100)
    requires n < 0 ==> said == []
    ensures Spell(n) == Words(Strip(result))
  {
    if n > 0 {
      assert Count(n, Order[0]) < 10 && Count(n, Order[1]) < 10 && Count(n, Order[2]) < 10;
      WordsForGroups(n);
    }
    RenderedAreWords(said);
    StripSpaced(RenderAll(said));
  }

  // ---------------------------------------------------------------------------
  // Properties of the spelling

  /** Zero and the amounts below one hundred: a single table entry, or a
      tens word followed by a units word only when the units digit is not zero. */
  lemma SpellBelowHundred(n: int)
    requires 0 <= n < 100
    ensures n == 0 ==> Spell(n) == Words("Zero")
    ensures 1 <= n <= 9 ==> Spell(n) == Words(Ones[n])
    ensures 10 <= n <= 19 ==> Spell(n) == Words(Teens[n - 10])
    ensures 20 <= n && n % 10 == 0 ==> Spell(n) == Words(Tens[n / 10])
    ensures 20 <= n && n % 10 != 0 ==> Spell(n) == Words(Tens[n / 10] + " " + Ones[n % 10])
  {
    if n > 0 {
      BelowHundredWords(n);
      if n >= 20 && n % 10 != 0 {
        PhraseOfTwo(Ten(n / 10), Unit(n % 10));
      } else if n >= 20 {
        PhraseOfOne(Ten(n / 10));
      } else if n >= 10 {
        PhraseOfOne(Teen(n - 10));
      } else {
        PhraseOfOne(Unit(n));
      }
    }
  }

  /** Below one hundred only the last two digits are said. */
  lemma BelowHundredWords(n: nat)
    requires 0 < n < 100
    ensures InRange(n) && Spell(n) == Words(Phrase(TwoDigitWords(n)))
  {
    assert CroreCount(n) == 0 && LakhCount(n) == 0 && ThousandCount(n) == 0;
    assert HundredCount(n) == 0 && n % 100 == n;
    var none: seq<Word> := [];
    assert WordsFor(n) == none + none + none + none + TwoDigitWords(n);
    NothingBefore(TwoDigitWords(n));
  }

  lemma NothingBefore(ws: seq<Word>)
    ensures [] + [] + [] + [] + ws == ws
  {
  }

  lemma PhraseOfOne(w: Word)
    requires ValidWord(w)
    ensures Phrase([w]) == Render(w)
  {
    var strs := RenderAll([w]);
    assert strs == [Render(w)];
    assert Join(strs, ' ') == strs[0];
  }

  lemma PhraseOfTwo(w: Word, v: Word)
    requires ValidWord(w) && ValidWord(v)
    ensures Phrase([w] + [v]) == Render(w) + " " + Render(v)
  {
    var strs := RenderAll([w] + [v]);
    assert strs == [Render(w), Render(v)];
    assert strs[..1] == [Render(w)];
    assert Join(strs, ' ') == Join(strs[..1], ' ') + [' '] + strs[1];
    assert Join(strs[..1], ' ') == Render(w);
  }

  /** A scale word occurs in a group exactly when the group is said and is of that scale. */
  lemma ScaleWordInGroup(count: nat, s: Scale, s': Scale)
    requires count < 10
    ensures ScaleWord(s') in Group(count, s) <==> count > 0 && s == s'
  {
    if count > 0 {
      assert Group(count, s)[1] == ScaleWord(s);
    }
  }

  /** The last two digits contain no scale word. */
  lemma NoScaleInTwoDigits(t: nat, s: Scale)
    requires t < 100
    ensures ScaleWord(s) !in TwoDigitWords(t)
  {
  }

  /** A scale word is said exactly when its group's count is not zero. */
  lemma ScaleWordForCount(n: nat, s: Scale)
    requires InRange(n) && n > 0
    ensures ScaleWord(s) in WordsFor(n) <==> Count(n, s) > 0
  {
    var c, l := Group(CroreCount(n), Crore), Group(LakhCount(n), Lakh);
    var t, h := Group(ThousandCount(n), Thousand), Group(HundredCount(n), Hundred);
    var u := TwoDigitWords(n % 100);
    assert WordsFor(n) == c + l + t + h + u;
    ScaleWordInGroup(CroreCount(n), Crore, s);
    ScaleWordInGroup(LakhCount(n), Lakh, s);
    ScaleWordInGroup(ThousandCount(n), Thousand, s);
    ScaleWordInGroup(HundredCount(n), Hundred, s);
    NoScaleInTwoDigits(n % 100, s);
  }

  /** Each scale word is said exactly when the amount left over for it
      reaches its divisor. */
  lemma ScaleWordsPresent(n: nat)
    requires n > 0 && InRange(n)
    ensures ScaleWord(Crore) in WordsFor(n) <==> n >= CroreValue
    ensures ScaleWord(Lakh) in WordsFor(n) <==> n % CroreValue >= LakhValue
    ensures ScaleWord(Thousand) in WordsFor(n) <==> n % LakhValue >= ThousandValue
    ensures ScaleWord(Hundred) in WordsFor(n) <==> n % ThousandValue >= HundredValue
  {
    CroreStep(n);
    LakhStep(n, n % CroreValue);
    ThousandStep(n, n % LakhValue);
    HundredStep(n, n % ThousandValue);
    ScaleWordForCount(n, Crore);
    ScaleWordForCount(n, Lakh);
    ScaleWordForCount(n, Thousand);
    ScaleWordForCount(n, Hundred);
  }

  /** Scale words are said in the order Crore, Lakh, Thousand, Hundred. */
  lemma ScalesInOrder(n: nat)
    requires n > 0 && InRange(n)
    ensures ScalesDescend(WordsFor(n))
  {
    var c, l := Group(CroreCount(n), Crore), Group(LakhCount(n), Lakh);
    var t, h := Group(ThousandCount(n), Thousand), Group(HundredCount(n), Hundred);
    var u := TwoDigitWords(n % 100);
    assert WordsFor(n) == c + l + t + h + u;
    ScalesAboveGroup(CroreCount(n), Crore, LakhValue);
    ScalesAboveGroup(CroreCount(n), Crore, ThousandValue);
    ScalesAboveGroup(LakhCount(n), Lakh, ThousandValue);
    ScalesAboveGroup(CroreCount(n), Crore, HundredValue);
    ScalesAboveGroup(LakhCount(n), Lakh, HundredValue);
    ScalesAboveGroup(ThousandCount(n), Thousand, HundredValue);
    ScalesDescendAppend(c, l, LakhValue);
    ScalesAboveAppend(c, l, ThousandValue);
    ScalesDescendAppend(c + l, t, ThousandValue);
    ScalesAboveAppend(c + l, t, HundredValue);
    ScalesDescendAppend(c + l + t, h, HundredValue);
    ScalesAboveAppend(c + l + t, h, 1);
    ScalesDescendAppend(c + l + t + h, u, 1);
  }

  /** Scale words appear in strictly decreasing order of value. */
  predicate ScalesDescend(ws: seq<Word>) {
    forall i, j :: 0 <= i < j < |ws| && ws[i].ScaleWord? && ws[j].ScaleWord? ==>
      ScaleValue(ws[i].s) > ScaleValue(ws[j].s)
  }

  /** Every scale word of `ws` is worth more than `bound`. */
  predicate ScalesAbove(ws: seq<Word>, bound: nat) {
    forall i :: 0 <= i < |ws| && ws[i].ScaleWord? ==> ScaleValue(ws[i].s) > bound
  }

  /** Every scale word of `ws` is worth at most `bound`. */
  predicate ScalesAtMost(ws: seq<Word>, bound: nat) {
    forall i :: 0 <= i < |ws| && ws[i].ScaleWord? ==> ScaleValue(ws[i].s) <= bound
  }

  lemma ScalesAboveGroup(count: nat, s: Scale, bound: nat)
    requires count < 10 && ScaleValue(s) > bound
    ensures ScalesAbove(Group(count, s), bound)
  {
  }

  lemma ScalesAboveAppend(a: seq<Word>, b: seq<Word>, bound: nat)
    requires ScalesAbove(a, bound) && ScalesAbove(b, bound)
    ensures ScalesAbove(a + b, bound)
  {
    var ab := a + b;
    forall i | 0 <= i < |ab| && ab[i].ScaleWord? ensures ScaleValue(ab[i].s) > bound {
      if i < |a| { assert ab[i] == a[i]; } else { assert ab[i] == b[i - |a|]; }
    }
  }

  /** Appending a run whose scales are all below those of `a` keeps the order. */
  lemma ScalesDescendAppend(a: seq<Word>, b: seq<Word>, bound: nat)
    requires ScalesDescend(a) && ScalesDescend(b)
    requires ScalesAbove(a, bound) && ScalesAtMost(b, bound)
    ensures ScalesDescend(a + b)
  {
    var ab := a + b;
    forall i, j | 0 <= i < j < |ab| && ab[i].ScaleWord? && ab[j].ScaleWord?
      ensures ScaleValue(ab[i].s) > ScaleValue(ab[j].s)
    {
      if j < |a| {
        assert ab[i] == a[i] && ab[j] == a[j];
      } else if i >= |a| {
        assert ab[i] == b[i - |a|] && ab[j] == b[j - |a|];
      } else {
        assert ab[i] == a[i] && ab[j] == b[j - |a|];
      }
    }
  }

  /** The lookups succeed exactly for amounts below ten crore whose
      ten-lakh digit and ten-thousand digit are both zero. */
  lemma InRangeDigits(n: nat)
    ensures InRange(n) <==> n < 100000000 && n / 1000000 % 10 == 0 && n / 10000 % 10 == 0
  {
    TensDigitOfPair(n / 100000);
    assert n / 100000 / 10 == n / 1000000;
    TensDigitOfPair(n / 1000);
    assert n / 1000 / 10 == n / 10000;
  }

  /** The last two digits of `a` are below ten exactly when its tens digit is zero. */
  lemma TensDigitOfPair(a: nat)
    ensures (a % 100 < 10) <==> (a / 10 % 10 == 0)
  {
    var q, r := a / 100, a % 100;
    assert a == 100 * q + r;
    assert a / 10 == 10 * q + r / 10;
    assert a / 10 % 10 == r / 10;
  }

  /** The source fails exactly on the amounts whose lookups do not all succeed. */
  lemma SpellFailsIffOutOfRange(n: int)
    ensures Spell(n).IndexError? <==> !InRange(n)
    ensures Spell(n).IndexError? ==> Spell(n).index >= |Ones|
  {
  }

  /** Every amount below ten thousand is spelled. */
  lemma SpellsBelowTenThousand(n: int)
    requires 0 <= n < 10000
    ensures Spell(n).Words?
  {
    InRangeDigits(n);
  }

  /** 15,000 has fifteen thousands: the source looks up `ones[15]` and fails. */
  lemma FifteenThousandOutOfRange()
    ensures Spell(15000) == IndexError(15)
    ensures Spell(10000) == IndexError(10)
  {
    assert CroreCount(15000) == 0 && LakhCount(15000) == 0 && ThousandCount(15000) == 15;
    assert CroreCount(10000) == 0 && LakhCount(10000) == 0 && ThousandCount(10000) == 10;
  }

  /** A positive amount the source can spell says at least one word. */
  lemma WordsForNonEmpty(n: nat)
    requires n > 0 && InRange(n)
    ensures WordsFor(n) != []
  {
    PlaceValues(n);
  }

  /** A phrase of at least one word has no surrounding whitespace, is not
      empty, and splits on spaces back into its words. */
  lemma PhraseIsTrimmedWords(ws: seq<Word>)
    requires AllValid(ws) && ws != []
    ensures Strip(Phrase(ws)) == Phrase(ws)
    ensures Phrase(ws) != ""
    ensures Split(Phrase(ws), ' ') == RenderAll(ws)
  {
    var strs := RenderAll(ws);
    RenderedAreWords(ws);
    assert forall i :: 0 <= i < |strs| ==> ' ' !in strs[i];
    SplitJoin(strs, ' ');
    JoinEnds(strs);
    var j := Join(strs, ' ');
    LetterIsNotWhitespace(j[0]);
    LetterIsNotWhitespace(j[|j| - 1]);
    TrimStartKeeps(j);
    TrimEndKeeps(j);
  }

  /** The spelled text has no surrounding whitespace, is never empty for a
      non-negative amount, and is the words separated by single spaces. */
  lemma SpellIsTrimmedWords(n: nat)
    requires InRange(n)
    ensures Spell(n).Words?
    ensures Strip(Spell(n).text) == Spell(n).text
    ensures Spell(n).text != ""
    ensures n > 0 ==> Split(Spell(n).text, ' ') == RenderAll(WordsFor(n))
  {
    if n > 0 {
      WordsForNonEmpty(n);
      PhraseIsTrimmedWords(WordsFor(n));
    } else {
      TrimStartKeeps("Zero");
      TrimEndKeeps("Zero");
    }
  }

  lemma TrimEndKeeps(s: string)
    requires s != [] && !IsPyWhitespace(s[|s| - 1])
    ensures TrimEnd(s) == s
  {
  }

  // ---------------------------------------------------------------------------
  // What the spelled words mean

  lemma RunTwoDigits(total: int, x: nat)
    requires x < 100
    ensures Run(Tally(total, 0), TwoDigitWords(x)) == Tally(total, x)
  {
    if x >= 20 {
      var ws := TwoDigitWords(x);
      assert x == 10 * (x / 10) + x % 10;
      if x % 10 > 0 {
        assert ws == [Ten(x / 10), Unit(x % 10)];
        assert ws[1..] == [Unit(x % 10)];
        var t1 := Tally(total, 10 * (x / 10));
        assert Run(Tally(total, 0), ws) == Run(t1, [Unit(x % 10)]);
        assert Run(t1, [Unit(x % 10)]) == Run(Tally(total, x), []);
      }
    }
  }

  /** A two-digit count and its scale word (other than Crore) add count times the scale. */
  lemma RunScaledGroup(total: int, c: nat, s: Scale)
    requires c < 100 && s != Crore
    ensures Run(Tally(total, 0), TwoDigitGroup(c, s)) == Tally(total + c * ScaleValue(s), 0)
  {
    if c > 0 {
      RunAppend(Tally(total, 0), TwoDigitWords(c), [ScaleWord(s)]);
      RunTwoDigits(total, c);
    }
  }

  /** The words below the crore group add the amount modulo one crore; the
      last two digits stay pending. */
  lemma RunLower(total: int, n: nat)
    ensures Run(Tally(total, 0), LowerWords(n)) == Tally(total + n % CroreValue - n % 100, n % 100)
  {
    var l, t := TwoDigitGroup(LakhCount(n), Lakh), TwoDigitGroup(ThousandCount(n), Thousand);
    var h, u := TwoDigitGroup(HundredCount(n), Hundred), TwoDigitWords(n % 100);
    assert LowerWords(n) == l + t + h + u;
    var t0 := Tally(total, 0);
    var t1 := Tally(total + LakhCount(n) * LakhValue, 0);
    var t2 := Tally(t1.total + ThousandCount(n) * ThousandValue, 0);
    var t3 := Tally(t2.total + HundredCount(n) * HundredValue, 0);
    RunScaledGroup(total, LakhCount(n), Lakh);
    RunScaledGroup(t1.total, ThousandCount(n), Thousand);
    RunScaledGroup(t2.total, HundredCount(n), Hundred);
    RunTwoDigits(t3.total, n % 100);
    RunAppend(t0, l, t);
    RunAppend(t0, l + t, h);
    RunAppend(t0, l + t + h, u);
    PlaceValues(n);
  }

  // ---------------------------------------------------------------------------
  // The corrected spelling

  /** A count of 0..99 and its scale word, or nothing for a zero count. */
  function TwoDigitGroup(count: nat, s: Scale): (ws: seq<Word>)
    requires count < 100
    ensures AllValid(ws)
  {
    if count == 0 then [] else TwoDigitWords(count) + [ScaleWord(s)]
  }

  /** The Lakh, Thousand and Hundred groups and the last two digits, each
      count spelled with the two-digit words. */
  function LowerWords(n: nat): (ws: seq<Word>)
    ensures AllValid(ws)
  {
    TwoDigitGroup(LakhCount(n), Lakh) + TwoDigitGroup(ThousandCount(n), Thousand)
      + TwoDigitGroup(HundredCount(n), Hundred) + TwoDigitWords(n % 100)
  }

  /** The intended spelling: every group count is spelled as a number in its
      own right (two-digit words below the crore, the whole spelling for the
      count of crores), so no lookup can fail. */
  function CorrectedWords(n: nat): (ws: seq<Word>)
    ensures AllValid(ws)
    decreases n
  {
    (if n >= CroreValue then CorrectedWords(n / CroreValue) + [ScaleWord(Crore)] else []) + LowerWords(n)
  }

  /** The corrected `numberToWords`: defined for every amount. */
  function CorrectedSpell(n: int): (text: string)
  {
    if n == 0 then "Zero" else if n < 0 then "" else Phrase(CorrectedWords(n))
  }

  /** The corrected words denote the amount they spell. */
  lemma {:induction false} CorrectedDenotesAmount(n: nat)
    ensures Value(CorrectedWords(n)) == n
    decreases n
  {
    var lower := LowerWords(n);
    if n < CroreValue {
      assert CorrectedWords(n) == [] + lower;
      assert [] + lower == lower;
      RunLower(0, n);
    } else {
      var q := n / CroreValue;
      var prefix := CorrectedWords(q);
      CorrectedDenotesAmount(q);
      SayCrores(prefix, q);
      assert CorrectedWords(n) == prefix + [ScaleWord(Crore)] + lower;
      RunAppend(Tally(0, 0), prefix + [ScaleWord(Crore)], lower);
      RunLower(q * CroreValue, n);
      CroresAndRest(n);
    }
  }

  /** Words denoting `q` followed by Crore leave `q` crores completed. */
  lemma SayCrores(prefix: seq<Word>, q: int)
    requires Value(prefix) == q
    ensures Run(Tally(0, 0), prefix + [ScaleWord(Crore)]) == Tally(q * CroreValue, 0)
  {
    RunAppend(Tally(0, 0), prefix, [ScaleWord(Crore)]);
  }

  lemma CroresAndRest(n: nat)
    ensures n == n / CroreValue * CroreValue + n % CroreValue
  {
  }

  /** For a single-digit count the two spellings of a group coincide. */
  lemma GroupIsTwoDigitGroup(count: nat, s: Scale)
    requires count < 10
    ensures Group(count, s) == TwoDigitGroup(count, s)
  {
    if count > 0 {
      assert TwoDigitWords(count) == [Unit(count)];
    }
  }

  /** A single digit is corrected-spelled as its units word. */
  lemma CorrectedSingleDigit(c: nat)
    requires 1 <= c < 10
    ensures CorrectedWords(c) == [Unit(c)]
  {
    assert LakhCount(c) == 0 && ThousandCount(c) == 0 && HundredCount(c) == 0 && c % 100 == c;
    assert LowerWords(c) == [Unit(c)];
    assert CorrectedWords(c) == [] + LowerWords(c);
  }

  /** The crore group as the source says it, for a single-digit count of crores. */
  lemma CroreGroupCorrected(n: nat)
    requires CroreCount(n) < 10
    ensures Group(CroreCount(n), Crore)
      == if n >= CroreValue then CorrectedWords(n / CroreValue) + [ScaleWord(Crore)] else []
  {
    if n >= CroreValue {
      CorrectedSingleDigit(CroreCount(n));
    }
  }

  /** Below the crore group the source says the lower words. */
  lemma LowerGroupsCorrected(n: nat)
    requires InRange(n) && n > 0
    ensures Group(LakhCount(n), Lakh) + Group(ThousandCount(n), Thousand)
      + Group(HundredCount(n), Hundred) + TwoDigitWords(n % 100) == LowerWords(n)
  {
    GroupIsTwoDigitGroup(LakhCount(n), Lakh);
    GroupIsTwoDigitGroup(ThousandCount(n), Thousand);
    GroupIsTwoDigitGroup(HundredCount(n), Hundred);
  }

  /** Wherever the source's lookups succeed, it says the same words as the corrected spelling. */
  lemma CorrectedAgreesInRange(n: nat)
    requires n > 0 && InRange(n)
    ensures CorrectedWords(n) == WordsFor(n)
    ensures CorrectedSpell(n) == Spell(n).text
  {
    CorrectedWordsInRange(n);
    assert Spell(n) == Words(Phrase(WordsFor(n)));
    assert CorrectedSpell(n) == Phrase(CorrectedWords(n));
  }

  lemma CorrectedWordsInRange(n: nat)
    requires n > 0 && InRange(n)
    ensures CorrectedWords(n) == WordsFor(n)
  {
    var c := Group(CroreCount(n), Crore);
    var l, t := Group(LakhCount(n), Lakh), Group(ThousandCount(n), Thousand);
    var h, u := Group(HundredCount(n), Hundred), TwoDigitWords(n % 100);
    CroreGroupCorrected(n);
    LowerGroupsCorrected(n);
    assert WordsFor(n) == c + l + t + h + u;
    RegroupFirst(c, l, t, h, u);
    assert CorrectedWords(n) == c + LowerWords(n);
  }

  lemma RegroupFirst(c: seq<Word>, l: seq<Word>, t: seq<Word>, h: seq<Word>, u: seq<Word>)
    ensures c + l + t + h + u == c + (l + t + h + u)
  {
  }

  /** The words the source says for an amount it can spell denote that amount. */
  lemma SpellDenotesAmount(n: nat)
    requires n > 0 && InRange(n)
    ensures Value(WordsFor(n)) == n
  {
    CorrectedAgreesInRange(n);
    CorrectedDenotesAmount(n);
  }

  /** The corrected spelling of 15,000 is "Fifteen Thousand". */
  lemma CorrectedFifteenThousand()
    ensures CorrectedSpell(15000) == "Fifteen Thousand"
  {
    var ws := CorrectedWords(15000);
    assert LowerWords(15000) == [Teen(5), ScaleWord(Thousand)];
    assert ws == [] + [Teen(5), ScaleWord(Thousand)];
    var strs := RenderAll(ws);
    assert strs == ["Fifteen", "Thousand"];
    assert strs[..1] == ["Fifteen"];
  }
}
