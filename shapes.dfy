/** The four fixed regular expressions of the formula parsers, written as
    sequences of tokens, and a prefix matcher for them that behaves as
    `re.match` does on these expressions. */
module Shapes {
  import opened Wrappers
  import opened Decimals

  /** `Lit` is literal text, `AnyChar` the unescaped `.` of a regular
      expression (any character but a newline) and `Num` the operand group
      `(\d+(\.\d+)?)`. */
  datatype Token = Lit(text: string) | AnyChar | Num

  /** A successful match: the operands in order, the characters the `.`
      tokens matched, and the length of the matched prefix. */
  datatype Match = Match(nums: seq<Decimal>, wilds: seq<char>, len: nat)

  function NumCount(pat: seq<Token>): nat {
    if pat == [] then 0 else (if pat[0] == Num then 1 else 0) + NumCount(pat[1..])
  }

  function WildCount(pat: seq<Token>): nat {
    if pat == [] then 0 else (if pat[0] == AnyChar then 1 else 0) + WildCount(pat[1..])
  }

  lemma CountsCons(t: Token, pat: seq<Token>)
    ensures NumCount([t] + pat) == (if t == Num then 1 else 0) + NumCount(pat)
    ensures WildCount([t] + pat) == (if t == AnyChar then 1 else 0) + WildCount(pat)
  {
    assert ([t] + pat)[1..] == pat;
  }

  predicate AllValid(nums: seq<Decimal>) {
    forall i :: 0 <= i < |nums| ==> ValidDecimal(nums[i])
  }

  predicate NoNewline(wilds: seq<char>) {
    forall i :: 0 <= i < |wilds| ==> wilds[i] != '\n'
  }

  /** The text a pattern stands for once its operands and wildcard
      characters are chosen: the language of the regular expression. */
  function Text(pat: seq<Token>, nums: seq<Decimal>, wilds: seq<char>): string
    requires |nums| == NumCount(pat) && |wilds| == WildCount(pat)
  {
    if pat == [] then []
    else match pat[0]
      case Lit(t) => t + Text(pat[1..], nums, wilds)
      case AnyChar => [wilds[0]] + Text(pat[1..], nums, wilds[1..])
      case Num => Render(nums[0]) + Text(pat[1..], nums[1..], wilds)
  }

  /** Every operand is followed by literal text that starts with a character
      that can neither continue nor start a numeral, so a greedy operand
      never has to give characters back. All four formula shapes are so. */
  predicate WellFormed(pat: seq<Token>) {
    forall i :: 0 <= i < |pat| - 1 && pat[i] == Num ==> StopsNumeral(pat[i + 1])
  }

  /** A literal whose first character can neither continue a numeral nor
      start its fractional part. */
  predicate StopsNumeral(t: Token) {
    t.Lit? && |t.text| > 0 && !IsDigit(t.text[0]) && t.text[0] != '.'
  }

  /** When the pattern ends with an operand, the text after the match cannot
      lengthen that operand. */
  predicate EndsMaximal(pat: seq<Token>, nums: seq<Decimal>, rest: string) {
    |pat| > 0 && pat[|pat| - 1] == Num && |nums| > 0 ==> Maximal(nums[|nums| - 1], rest)
  }

  /** m can be a match of pat at the start of s: it covers a prefix of s
      and reports one numeral per operand token and one character, not a
      newline, per `.` token. */
  predicate Fits(pat: seq<Token>, s: string, m: Match) {
    && m.len <= |s|
    && |m.nums| == NumCount(pat) && |m.wilds| == WildCount(pat)
    && AllValid(m.nums) && NoNewline(m.wilds)
  }

  /** `re.match(pattern, s)`: the match of pat at the start of s, if any.
      Trailing text after the match is ignored. */
  function MatchShape(pat: seq<Token>, s: string): (r: Option<Match>)
    ensures r.Some? ==> Fits(pat, s, r.value)
  {
    if pat == [] then Some(Match([], [], 0))
    else match pat[0]
      case Lit(t) =>
        if t <= s then
          match MatchShape(pat[1..], s[|t|..])
          case None => None
          case Some(m) => Some(Match(m.nums, m.wilds, |t| + m.len))
        else None
      case AnyChar =>
        if |s| > 0 && s[0] != '\n' then
          match MatchShape(pat[1..], s[1..])
          case None => None
          case Some(m) => Some(Match(m.nums, [s[0]] + m.wilds, 1 + m.len))
        else None
      case Num =>
        match Scan(s)
        case None => None
        case Some((d, rest)) =>
          match MatchShape(pat[1..], rest)
          case None => None
          case Some(m) => Some(Match([d] + m.nums, m.wilds, |Render(d)| + m.len))
  }

  /** A prefix of k + n characters is the first k followed by the next n. */
  lemma PrefixSplit(s: string, k: nat, n: nat)
    requires k + n <= |s|
    ensures s[..k + n] == s[..k] + s[k..][..n]
  {
  }

  /** Soundness: the prefix a match covers is the text of the pattern for
      the operands and characters the match reports. */
  lemma {:induction false} MatchShapeSound(pat: seq<Token>, s: string)
    requires MatchShape(pat, s).Some?
    ensures var m := MatchShape(pat, s).value; Text(pat, m.nums, m.wilds) == s[..m.len]
  {
    if pat != [] {
      match pat[0]
      case Lit(t) =>
        var m := MatchShape(pat[1..], s[|t|..]).value;
        MatchShapeSound(pat[1..], s[|t|..]);
        LitStep(pat, s, m);
        LitSound(pat, s, m);
      case AnyChar =>
        var m := MatchShape(pat[1..], s[1..]).value;
        MatchShapeSound(pat[1..], s[1..]);
        AnyCharStep(pat, s, m);
        AnyCharSound(pat, s, m);
      case Num =>
        var (d, after) := Scan(s).value;
        var m := MatchShape(pat[1..], after).value;
        MatchShapeSound(pat[1..], after);
        NumStep(pat, s, d, after, m);
        NumSound(pat, s, d, after, m);
    }
  }

  /** How the matcher proceeds past a literal token. */
  lemma LitStep(pat: seq<Token>, s: string, m: Match)
    requires pat != [] && pat[0].Lit? && pat[0].text <= s
    requires MatchShape(pat[1..], s[|pat[0].text|..]) == Some(m)
    ensures MatchShape(pat, s).Some?
    ensures MatchShape(pat, s).value.nums == m.nums && MatchShape(pat, s).value.wilds == m.wilds
    ensures MatchShape(pat, s).value.len == |pat[0].text| + m.len
  {
  }

  /** How the matcher proceeds past a `.` token. */
  lemma AnyCharStep(pat: seq<Token>, s: string, m: Match)
    requires pat != [] && pat[0].AnyChar? && |s| > 0 && s[0] != '\n'
    requires MatchShape(pat[1..], s[1..]) == Some(m)
    ensures MatchShape(pat, s).Some?
    ensures MatchShape(pat, s).value.nums == m.nums && MatchShape(pat, s).value.wilds == [s[0]] + m.wilds
    ensures MatchShape(pat, s).value.len == 1 + m.len
  {
  }

  /** How the matcher proceeds past an operand token, given the numeral
      found at the start of the text. */
  lemma NumStep(pat: seq<Token>, s: string, d: Decimal, after: string, m: Match)
    requires pat != [] && pat[0].Num? && Scan(s) == Some((d, after))
    requires MatchShape(pat[1..], after) == Some(m)
    ensures MatchShape(pat, s).Some?
    ensures MatchShape(pat, s).value.nums == [d] + m.nums && MatchShape(pat, s).value.wilds == m.wilds
    ensures MatchShape(pat, s).value.len == |Render(d)| + m.len
  {
  }

  lemma LitSound(pat: seq<Token>, s: string, m: Match)
    requires pat != [] && pat[0].Lit? && pat[0].text <= s
    requires Fits(pat[1..], s[|pat[0].text|..], m)
    requires Text(pat[1..], m.nums, m.wilds) == s[|pat[0].text|..][..m.len]
    ensures Text(pat, m.nums, m.wilds) == s[..|pat[0].text| + m.len]
  {
    var t := pat[0].text;
    assert Text(pat, m.nums, m.wilds) == t + Text(pat[1..], m.nums, m.wilds);
    PrefixSplit(s, |t|, m.len);
    assert s[..|t|] == t;
  }

  lemma AnyCharSound(pat: seq<Token>, s: string, m: Match)
    requires pat != [] && pat[0].AnyChar? && |s| > 0
    requires Fits(pat[1..], s[1..], m)
    requires Text(pat[1..], m.nums, m.wilds) == s[1..][..m.len]
    ensures Text(pat, m.nums, [s[0]] + m.wilds) == s[..1 + m.len]
  {
    var w := [s[0]] + m.wilds;
    assert w[1..] == m.wilds;
    assert Text(pat, m.nums, w) == [s[0]] + Text(pat[1..], m.nums, m.wilds);
    PrefixSplit(s, 1, m.len);
    assert s[..1] == [s[0]];
  }

  lemma NumSound(pat: seq<Token>, s: string, d: Decimal, after: string, m: Match)
    requires pat != [] && pat[0].Num? && s == Render(d) + after
    requires Fits(pat[1..], after, m)
    requires Text(pat[1..], m.nums, m.wilds) == after[..m.len]
    ensures Text(pat, [d] + m.nums, m.wilds) == s[..|Render(d)| + m.len]
  {
    var n := [d] + m.nums;
    assert n[1..] == m.nums;
    PrefixSplit(s, |Render(d)|, m.len);
    assert s[..|Render(d)|] == Render(d) && s[|Render(d)|..] == after;
  }

  /** A text the matcher accepts is an instance of the pattern followed by
      the text after the match. */
  lemma ShapeOfMatch(pat: seq<Token>, s: string) returns (nums: seq<Decimal>, wilds: seq<char>, rest: string)
    requires MatchShape(pat, s).Some?
    ensures |nums| == NumCount(pat) && |wilds| == WildCount(pat)
    ensures AllValid(nums) && NoNewline(wilds)
    ensures s == Text(pat, nums, wilds) + rest
    ensures EndsMaximal(pat, nums, rest)
  {
    MatchShapeSound(pat, s);
    MatchShapeEndsMaximal(pat, s);
    var m := MatchShape(pat, s).value;
    nums, wilds, rest := m.nums, m.wilds, s[m.len..];
    assert s == s[..m.len] + s[m.len..];
  }

  /** The matcher reads operands greedily: when the pattern ends with an
      operand, the text after the match cannot lengthen it. */
  lemma {:induction false} MatchShapeEndsMaximal(pat: seq<Token>, s: string)
    requires MatchShape(pat, s).Some?
    ensures var m := MatchShape(pat, s).value; EndsMaximal(pat, m.nums, s[m.len..])
    decreases pat, 1
  {
    if pat != [] {
      match pat[0]
      case Lit(_) => LitEndsMaximal(pat, s);
      case AnyChar => AnyCharEndsMaximal(pat, s);
      case Num => NumEndsMaximal(pat, s);
    }
  }

  lemma {:induction false} LitEndsMaximal(pat: seq<Token>, s: string)
    requires pat != [] && pat[0].Lit? && MatchShape(pat, s).Some?
    ensures var m := MatchShape(pat, s).value; EndsMaximal(pat, m.nums, s[m.len..])
    decreases pat, 0
  {
    var t := pat[0].text;
    var m := MatchShape(pat[1..], s[|t|..]).value;
    MatchShapeEndsMaximal(pat[1..], s[|t|..]);
    LitStep(pat, s, m);
    assert s[|t|..][m.len..] == s[|t| + m.len..];
    EndsMaximalPastLiteral(pat, m.nums, s[|t| + m.len..]);
  }

  lemma {:induction false} AnyCharEndsMaximal(pat: seq<Token>, s: string)
    requires pat != [] && pat[0].AnyChar? && MatchShape(pat, s).Some?
    ensures var m := MatchShape(pat, s).value; EndsMaximal(pat, m.nums, s[m.len..])
    decreases pat, 0
  {
    var m := MatchShape(pat[1..], s[1..]).value;
    MatchShapeEndsMaximal(pat[1..], s[1..]);
    AnyCharStep(pat, s, m);
    assert s[1..][m.len..] == s[1 + m.len..];
    EndsMaximalPastLiteral(pat, m.nums, s[1 + m.len..]);
  }

  lemma {:induction false} NumEndsMaximal(pat: seq<Token>, s: string)
    requires pat != [] && pat[0].Num? && MatchShape(pat, s).Some?
    ensures var m := MatchShape(pat, s).value; EndsMaximal(pat, m.nums, s[m.len..])
    decreases pat, 0
  {
    var (d, after) := Scan(s).value;
    var m := MatchShape(pat[1..], after).value;
    MatchShapeEndsMaximal(pat[1..], after);
    NumStep(pat, s, d, after, m);
    assert s[|Render(d)| + m.len..] == after[m.len..];
    if |pat| == 1 {
      assert pat[1..] == [];
    }
    EndsMaximalPastOperand(pat, d, m.nums, after, m.len);
  }

  /** A pattern that does not start with an operand ends as its tail does. */
  lemma EndsMaximalPastLiteral(pat: seq<Token>, nums: seq<Decimal>, rest: string)
    requires pat != [] && !pat[0].Num? && EndsMaximal(pat[1..], nums, rest)
    ensures EndsMaximal(pat, nums, rest)
  {
    if |pat| > 1 {
      assert pat[1..][|pat[1..]| - 1] == pat[|pat| - 1];
    }
  }

  /** Past a leading operand read as far as it goes: a lone operand is
      maximal in what follows it, and a longer pattern ends as its tail does. */
  lemma EndsMaximalPastOperand(pat: seq<Token>, d: Decimal, nums: seq<Decimal>, after: string, k: nat)
    requires pat != [] && pat[0].Num? && |nums| == NumCount(pat[1..]) && k <= |after|
    requires Maximal(d, after) && (|pat| == 1 ==> k == 0)
    requires EndsMaximal(pat[1..], nums, after[k..])
    ensures EndsMaximal(pat, [d] + nums, after[k..])
  {
    if |pat| == 1 {
      assert after[k..] == after;
    } else {
      assert pat[1..][|pat[1..]| - 1] == pat[|pat| - 1];
      if pat[|pat| - 1] == Num {
        LastOperandCounted(pat[1..]);
        assert ([d] + nums)[|nums|] == nums[|nums| - 1];
      }
    }
  }

  /** A pattern that ends with an operand has at least one. */
  lemma {:induction false} LastOperandCounted(pat: seq<Token>)
    requires |pat| > 0 && pat[|pat| - 1] == Num
    ensures NumCount(pat) > 0
  {
    if pat[0] != Num {
      assert pat[1..][|pat[1..]| - 1] == pat[|pat| - 1];
      LastOperandCounted(pat[1..]);
    }
  }

  /** Completeness: a well-formed pattern matches at the start of any text
      that begins with one of its instances; and when the instance cannot be
      lengthened, the match reports exactly that instance. */
  lemma {:induction false} MatchShapeComplete(pat: seq<Token>, nums: seq<Decimal>, wilds: seq<char>, rest: string)
    requires WellFormed(pat)
    requires |nums| == NumCount(pat) && |wilds| == WildCount(pat)
    requires AllValid(nums) && NoNewline(wilds)
    ensures MatchShape(pat, Text(pat, nums, wilds) + rest).Some?
    ensures EndsMaximal(pat, nums, rest) ==>
      MatchShape(pat, Text(pat, nums, wilds) + rest) == Some(Match(nums, wilds, |Text(pat, nums, wilds)|))
    decreases pat, 1
  {
    if pat != [] {
      WellFormedTail(pat);
      match pat[0]
      case Lit(t) => CompleteLit(pat, nums, wilds, rest);
      case AnyChar => CompleteAnyChar(pat, nums, wilds, rest);
      case Num => CompleteNum(pat, nums, wilds, rest);
    }
  }

  lemma WellFormedTail(pat: seq<Token>)
    requires pat != [] && WellFormed(pat)
    ensures WellFormed(pat[1..])
  {
    forall i | 0 <= i < |pat[1..]| - 1 && pat[1..][i] == Num
      ensures StopsNumeral(pat[1..][i + 1])
    {
      assert pat[i + 1] == Num;
    }
  }

  /** Putting a token in front of a well-formed pattern keeps it well formed
      when an operand token is followed by a literal that stops it. */
  lemma WellFormedCons(t: Token, pat: seq<Token>)
    requires WellFormed(pat)
    requires t == Num ==> |pat| > 0 && StopsNumeral(pat[0])
    ensures WellFormed([t] + pat)
  {
    var p := [t] + pat;
    forall i | 0 <= i < |p| - 1 && p[i] == Num
      ensures StopsNumeral(p[i + 1])
    {
      if i > 0 {
        assert p[i] == pat[i - 1] && p[i + 1] == pat[i];
      }
    }
  }

  lemma {:induction false} CompleteLit(pat: seq<Token>, nums: seq<Decimal>, wilds: seq<char>, rest: string)
    requires pat != [] && pat[0].Lit? && WellFormed(pat) && WellFormed(pat[1..])
    requires |nums| == NumCount(pat) && |wilds| == WildCount(pat)
    requires AllValid(nums) && NoNewline(wilds)
    ensures MatchShape(pat, Text(pat, nums, wilds) + rest).Some?
    ensures EndsMaximal(pat, nums, rest) ==>
      MatchShape(pat, Text(pat, nums, wilds) + rest) == Some(Match(nums, wilds, |Text(pat, nums, wilds)|))
    decreases pat, 0
  {
    var t := pat[0].text;
    var inner := Text(pat[1..], nums, wilds);
    var s := Text(pat, nums, wilds) + rest;
    assert s == t + (inner + rest);
    assert s[|t|..] == inner + rest;
    MatchShapeComplete(pat[1..], nums, wilds, rest);
    LitStep(pat, s, MatchShape(pat[1..], inner + rest).value);
    if EndsMaximal(pat, nums, rest) {
      EndsMaximalTail(pat, nums, rest);
    }
  }

  lemma {:induction false} CompleteAnyChar(pat: seq<Token>, nums: seq<Decimal>, wilds: seq<char>, rest: string)
    requires pat != [] && pat[0].AnyChar? && WellFormed(pat) && WellFormed(pat[1..])
    requires |nums| == NumCount(pat) && |wilds| == WildCount(pat)
    requires AllValid(nums) && NoNewline(wilds)
    ensures MatchShape(pat, Text(pat, nums, wilds) + rest).Some?
    ensures EndsMaximal(pat, nums, rest) ==>
      MatchShape(pat, Text(pat, nums, wilds) + rest) == Some(Match(nums, wilds, |Text(pat, nums, wilds)|))
    decreases pat, 0
  {
    var c, tail := wilds[0], wilds[1..];
    var inner := Text(pat[1..], nums, tail);
    assert Text(pat, nums, wilds) == [c] + inner;
    var s := [c] + inner + rest;
    assert s[0] == c && s[1..] == inner + rest;
    assert c != '\n' && NoNewline(tail);
    MatchShapeComplete(pat[1..], nums, tail, rest);
    AnyCharStep(pat, s, MatchShape(pat[1..], inner + rest).value);
    assert wilds == [c] + tail;
    if EndsMaximal(pat, nums, rest) {
      EndsMaximalTail(pat, nums, rest);
    }
  }

  /** A pattern that does not start with an operand ends as its tail does. */
  lemma EndsMaximalTail(pat: seq<Token>, nums: seq<Decimal>, rest: string)
    requires pat != [] && !pat[0].Num? && EndsMaximal(pat, nums, rest)
    ensures EndsMaximal(pat[1..], nums, rest)
  {
    if |pat| > 1 {
      assert pat[1..][|pat[1..]| - 1] == pat[|pat| - 1];
    }
  }

  lemma {:induction false} CompleteNum(pat: seq<Token>, nums: seq<Decimal>, wilds: seq<char>, rest: string)
    requires pat != [] && pat[0].Num? && WellFormed(pat) && WellFormed(pat[1..])
    requires |nums| == NumCount(pat) && |wilds| == WildCount(pat)
    requires AllValid(nums) && NoNewline(wilds)
    ensures MatchShape(pat, Text(pat, nums, wilds) + rest).Some?
    ensures EndsMaximal(pat, nums, rest) ==>
      MatchShape(pat, Text(pat, nums, wilds) + rest) == Some(Match(nums, wilds, |Text(pat, nums, wilds)|))
    decreases pat, 0
  {
    var d := nums[0];
    if |pat| == 1 {
      assert pat == [Num] && nums == [d] && wilds == [];
      assert Text(pat, nums, wilds) == Render(d);
      LastOperand(d, rest);
    } else {
      var tail := nums[1..];
      var inner := Text(pat[1..], tail, wilds);
      assert AllValid(tail);
      MatchShapeComplete(pat[1..], tail, wilds, rest);
      StoppedByFollower(pat, tail, wilds, rest, d);
      assert Text(pat, nums, wilds) + rest == Render(d) + (inner + rest);
      OperandStep(pat, d, inner + rest);
      EndsMaximalAfterOperand(pat, nums, rest);
      assert nums == [d] + tail;
    }
  }

  /** Past a leading operand, a longer pattern ends as its tail does. */
  lemma EndsMaximalAfterOperand(pat: seq<Token>, nums: seq<Decimal>, rest: string)
    requires |pat| > 1 && |nums| > 0
    ensures EndsMaximal(pat, nums, rest) ==> EndsMaximal(pat[1..], nums[1..], rest)
  {
    assert pat[1..][|pat[1..]| - 1] == pat[|pat| - 1];
    if |nums| > 1 {
      assert nums[1..][|nums[1..]| - 1] == nums[|nums| - 1];
    }
  }

  /** How the matcher proceeds past an operand token: the numeral, when
      nothing after it can lengthen it, and then the rest of the pattern. */
  lemma OperandStep(pat: seq<Token>, d: Decimal, after: string)
    requires pat != [] && pat[0] == Num && ValidDecimal(d) && Maximal(d, after)
    requires MatchShape(pat[1..], after).Some?
    ensures MatchShape(pat, Render(d) + after).Some?
    ensures MatchShape(pat, Render(d) + after).value.nums == [d] + MatchShape(pat[1..], after).value.nums
    ensures MatchShape(pat, Render(d) + after).value.wilds == MatchShape(pat[1..], after).value.wilds
    ensures MatchShape(pat, Render(d) + after).value.len == |Render(d)| + MatchShape(pat[1..], after).value.len
  {
    ScanRender(d, after);
    NumStep(pat, Render(d) + after, d, after, MatchShape(pat[1..], after).value);
  }

  /** A pattern that is a single operand matches any text that starts with
      a numeral, and reports that numeral when nothing can lengthen it. */
  lemma LastOperand(d: Decimal, rest: string)
    requires ValidDecimal(d)
    ensures MatchShape([Num], Render(d) + rest).Some?
    ensures Maximal(d, rest) ==> MatchShape([Num], Render(d) + rest) == Some(Match([d], [], |Render(d)|))
  {
    RenderStartsWithDigit(d);
    var t := Render(d) + rest;
    assert t[0] == Render(d)[0];
    assert Scan(t).Some?;
    assert [Num][1..] == [];
    assert MatchShape([], Scan(t).value.1) == Some(Match([], [], 0));
    if Maximal(d, rest) {
      ScanRender(d, rest);
      assert [d] + [] == [d];
    }
  }

  /** The literal after an operand token stops that operand, whatever the
      rest of the instance and the text after it. */
  lemma StoppedByFollower(pat: seq<Token>, nums: seq<Decimal>, wilds: seq<char>, rest: string, d: Decimal)
    requires |pat| > 1 && pat[0].Num? && WellFormed(pat)
    requires |nums| == NumCount(pat[1..]) && |wilds| == WildCount(pat[1..])
    ensures Maximal(d, Text(pat[1..], nums, wilds) + rest)
  {
    assert StopsNumeral(pat[1]);
    var t := Text(pat[1..], nums, wilds);
    assert t == pat[1].text + Text(pat[2..], nums, wilds);
    assert (t + rest)[0] == pat[1].text[0];
  }
}
