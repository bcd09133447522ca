/**
 * Question generation of the stage game: the operand arithmetic of
 * `generateQuestion` and the choice-set loop of `generateChoices`.
 * Every `Math.random()` draw is an input here: the operator coin, the two
 * operand draws and the stream of wrong-answer offsets.
 */
module Questions {
  import opened Constants

  datatype Operator = Plus | Minus

  /** The hook's question: two operands, the operator and the expected answer. */
  datatype Question = Question(num1: int, num2: int, operator: Operator, answer: int)

  /**
   * The draws one question consumes: `addition` is the outcome of
   * `Math.random() < 0.6`; `first` is `Math.floor(Math.random() * 9)` for an
   * addition or `Math.floor(Math.random() * 8)` for a subtraction; `second` is
   * `Math.floor(Math.random() * k)` where k is 10 - num1 or num1 - 1.
   */
  datatype QuestionDraw = QuestionDraw(addition: bool, first: int, second: int)

  function FirstOperand(d: QuestionDraw): int {
    if d.addition then d.first + 1 else d.first + 2
  }

  /** The ranges `Math.floor(Math.random() * k)` can produce for each draw. */
  predicate ValidDraw(d: QuestionDraw) {
    if d.addition then 0 <= d.first < 9 && 0 <= d.second < 10 - FirstOperand(d)
    else 0 <= d.first < 8 && 0 <= d.second < FirstOperand(d) - 1
  }

  predicate IsAdditionQuestion(q: Question) {
    q.operator == Plus && 1 <= q.num1 <= 9 && 1 <= q.num2 <= 10 - q.num1 && q.answer == q.num1 + q.num2
  }

  predicate IsSubtractionQuestion(q: Question) {
    q.operator == Minus && 2 <= q.num1 <= 9 && 1 <= q.num2 <= q.num1 - 1 && q.answer == q.num1 - q.num2
  }

  /** The questions a first-grader can be asked: sums up to ten, differences of single digits. */
  predicate IsQuestion(q: Question) {
    IsAdditionQuestion(q) || IsSubtractionQuestion(q)
  }

  /** The arithmetic of `generateQuestion`. */
  function GenerateQuestion(d: QuestionDraw): (q: Question)
    requires ValidDraw(d)
    ensures IsQuestion(q)
    ensures q.operator == (if d.addition then Plus else Minus)
    ensures q.operator == Plus ==> 2 <= q.answer <= 10
    ensures q.operator == Minus ==> q.num1 > q.num2 >= 1 && 1 <= q.answer <= 8
  {
    var num1 := FirstOperand(d);
    var num2 := d.second + 1;
    if d.addition then Question(num1, num2, Plus, num1 + num2)
    else Question(num1, num2, Minus, num1 - num2)
  }

  /** Every allowed question is produced by some draw: the ranges leave nothing out. */
  lemma EveryQuestionIsGenerated(q: Question)
    requires IsQuestion(q)
    ensures exists d :: ValidDraw(d) && GenerateQuestion(d) == q
  {
    var d := if q.operator == Plus then QuestionDraw(true, q.num1 - 1, q.num2 - 1)
             else QuestionDraw(false, q.num1 - 2, q.num2 - 1);
    assert ValidDraw(d) && GenerateQuestion(d) == q;
  }

  /** Every answer lies in 1..10. */
  lemma AnswerRange(d: QuestionDraw)
    requires ValidDraw(d)
    ensures 1 <= GenerateQuestion(d).answer <= 10
  {
  }

  // ---------------------------------------------------------------- choices

  /** Each offset is `Math.floor(Math.random() * 5) - 2`. */
  predicate OffsetsInRange(offsets: seq<int>) {
    forall i :: 0 <= i < |offsets| ==> -2 <= offsets[i] <= 2
  }

  /** The loop's test for adding `answer + offset` to the set. */
  predicate Admits(answer: int, offset: int) {
    answer + offset >= 0 && answer + offset != answer
  }

  /** A wrong choice: non-negative, not the answer, at most two away from it. */
  predicate IsWrongChoice(answer: int, v: int) {
    v >= 0 && v != answer && answer - 2 <= v <= answer + 2
  }

  /** The set the loop holds after consuming the first `n` offsets (it starts as `{answer}`). */
  function Collected(answer: int, offsets: seq<int>, n: nat): (held: set<int>)
    requires n <= |offsets|
    ensures answer in held
  {
    if n == 0 then {answer} else AddIfAdmitted(Collected(answer, offsets, n - 1), answer, offsets[n - 1])
  }

  /** One pass of the loop body: the set, with `answer + offset` added when the loop admits it. */
  function AddIfAdmitted(held: set<int>, answer: int, offset: int): (r: set<int>)
    ensures held <= r && |r| <= |held| + 1
  {
    if Admits(answer, offset) then
      assert |held + {answer + offset}| <= |held| + 1 by {
        if answer + offset in held {
          assert held + {answer + offset} == held;
        }
      }
      held + {answer + offset}
    else held
  }

  /** The set holds the answer, and everything else in it is a wrong choice. */
  lemma {:induction false} CollectedMembers(answer: int, offsets: seq<int>, n: nat)
    requires OffsetsInRange(offsets) && n <= |offsets|
    ensures answer in Collected(answer, offsets, n)
    ensures forall v :: v in Collected(answer, offsets, n) && v != answer ==> IsWrongChoice(answer, v)
  {
    if n > 0 {
      CollectedMembers(answer, offsets, n - 1);
    }
  }

  /** The offset stream is long enough for the loop to reach four distinct values. */
  predicate OffsetsFill(answer: int, offsets: seq<int>) {
    OffsetsInRange(offsets) && |Collected(answer, offsets, |offsets|)| >= 4
  }

  predicate ChoiceList(answer: int, choices: seq<int>) {
    && |choices| == 4
    && NoDuplicates(choices)
    && answer in choices
    && forall i :: 0 <= i < |choices| && choices[i] != answer ==> IsWrongChoice(answer, choices[i])
  }

  /** After n offsets the set holds at most n + 1 values. */
  lemma {:induction false} CollectedSize(answer: int, offsets: seq<int>, n: nat)
    requires n <= |offsets|
    ensures |Collected(answer, offsets, n)| <= n + 1
  {
    if n > 0 {
      CollectedSize(answer, offsets, n - 1);
    }
  }

  /**
   * `generateChoices`: add `answer + offset` for successive offsets until four
   * distinct values are held, then list them in some order.
   */
  method GenerateChoices(answer: int, offsets: seq<int>) returns (choices: seq<int>, used: nat)
    requires OffsetsFill(answer, offsets)
    ensures ChoiceList(answer, choices)
    ensures 3 <= used <= |offsets|
    ensures forall v :: v in choices <==> v in Collected(answer, offsets, used)
    ensures |Collected(answer, offsets, used - 1)| < 4
  {
    var held;
    held, used := FillChoiceSet(answer, offsets);
    CollectedMembers(answer, offsets, used);
    choices := ListInSomeOrder(held);
  }

  /** The `while (choiceSet.size < 4)` loop: consume offsets until four values are held. */
  method FillChoiceSet(answer: int, offsets: seq<int>) returns (held: set<int>, used: nat)
    requires OffsetsFill(answer, offsets)
    ensures 3 <= used <= |offsets|
    ensures held == Collected(answer, offsets, used) && |held| == 4
    ensures |Collected(answer, offsets, used - 1)| < 4
  {
    held := {answer};
    used := 0;
    while |held| < 4
      invariant 0 <= used <= |offsets|
      invariant held == Collected(answer, offsets, used) && |held| <= 4
      invariant used > 0 ==> |Collected(answer, offsets, used - 1)| < 4
      decreases |offsets| - used
    {
      if used == |offsets| {
        assert false;
      }
      ghost var before := held;
      var candidate := answer + offsets[used];
      if candidate >= 0 && candidate != answer {
        held := held + {candidate};
      }
      assert held == AddIfAdmitted(before, answer, offsets[used]);
      used := used + 1;
    }
    CollectedSize(answer, offsets, used);
  }

  /** `Array.from(set).sort(() => Math.random() - 0.5)`: the set's members, each once, in some order. */
  method ListInSomeOrder<T>(values: set<T>) returns (r: seq<T>)
    ensures forall v :: v in r <==> v in values
    ensures NoDuplicates(r) && |r| == |values|
  {
    r := [];
    var rest := values;
    while rest != {}
      invariant rest <= values
      invariant forall v :: v in r <==> v in values && v !in rest
      invariant NoDuplicates(r)
      invariant |r| + |rest| == |values|
      decreases |rest|
    {
      var x :| x in rest;
      r := r + [x];
      rest := rest - {x};
    }
  }

  /** The values the loop could ever add for this answer. */
  function Candidates(answer: int): set<int> {
    set v | answer - 2 <= v <= answer + 2 && IsWrongChoice(answer, v)
  }

  lemma {:induction false} CollectedWithinCandidates(answer: int, offsets: seq<int>)
    requires OffsetsInRange(offsets)
    ensures Collected(answer, offsets, |offsets|) <= Candidates(answer) + {answer}
  {
    CollectedMembers(answer, offsets, |offsets|);
  }

  /** With an answer of at least 1, offsets -1, 1, 2 fill the set. */
  lemma ChoicesCanFinish(answer: int)
    requires answer >= 1
    ensures exists offsets :: OffsetsFill(answer, offsets)
  {
    var offsets := [-1, 1, 2];
    assert Collected(answer, offsets, 1) == {answer, answer - 1};
    assert Collected(answer, offsets, 2) == {answer, answer - 1, answer + 1};
    assert Collected(answer, offsets, 3) == {answer, answer - 1, answer + 1, answer + 2};
    assert |{answer, answer - 1, answer + 1, answer + 2}| == 4;
    assert OffsetsFill(answer, offsets);
  }

  /** With an answer of 0 only 1 and 2 are wrong choices, so no offset stream fills the set. */
  lemma ZeroAnswerNeverFills(offsets: seq<int>)
    requires OffsetsInRange(offsets)
    ensures !OffsetsFill(0, offsets)
  {
    CollectedWithinCandidates(0, offsets);
    assert Candidates(0) + {0} == {0, 1, 2};
    SubsetCard(Collected(0, offsets, |offsets|), {0, 1, 2});
  }

  lemma SubsetCard(a: set<int>, b: set<int>)
    requires a <= b
    ensures |a| <= |b|
  {
    assert b == a + (b - a);
  }

  /** Every generated question admits a finite offset stream that fills its choice set. */
  lemma GeneratedQuestionsHaveChoices(d: QuestionDraw)
    requires ValidDraw(d)
    ensures exists offsets :: OffsetsFill(GenerateQuestion(d).answer, offsets)
  {
    ChoicesCanFinish(GenerateQuestion(d).answer);
  }
}
