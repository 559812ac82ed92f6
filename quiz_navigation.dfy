/** Question-to-question navigation of a quiz run
    (features/quiz/hooks/use-quiz-navigation.ts). Moving is deferred by a
    300 ms timer; the timers still to fire are kept, oldest first, in
    `pending`, and each applies its move to the index current when it fires. */
module QuizNavigation {
  import opened Common

  datatype Move = Next | Previous

  /** The index update a timer performs: `prev + 1` or `Math.max(0, prev - 1)`. */
  function Apply(m: Move, index: int): int
  {
    match m
    case Next => index + 1
    case Previous => Max(0, index - 1)
  }

  /** The index after the resynchronising effect: back to 0 when there are no
      questions or the index is past the last one. */
  function Resynced(currentIndex: int, totalQuestions: int): int
  {
    if totalQuestions == 0 then 0
    else if currentIndex > totalQuestions - 1 then 0
    else currentIndex
  }

  /** Moves never make the index negative, and after the effect a
      non-negative index points at a question, and is 0 when there are none
      (a negative total also sends it to 0, past the last question). */
  lemma IndexInRange(m: Move, index: int, totalQuestions: int)
    requires index >= 0
    ensures Apply(m, index) >= 0
    ensures m == Previous ==> Apply(m, index) == if index == 0 then 0 else index - 1
    ensures totalQuestions > 0 ==> 0 <= Resynced(index, totalQuestions) < totalQuestions
    ensures totalQuestions <= 0 ==> Resynced(index, totalQuestions) == 0
  {
  }

  class Navigator {
    var currentIndex: int
    var isTransitioning: bool
    var pending: seq<Move>

    ghost predicate Valid()
      reads this
    {
      currentIndex >= 0
    }

    constructor ()
      ensures Valid()
      ensures currentIndex == 0 && !isTransitioning && pending == []
    {
      currentIndex := 0;
      isTransitioning := false;
      pending := [];
    }

    /** The effect that keeps the index within the questions. */
    method Resync(totalQuestions: int)
      requires Valid()
      modifies this`currentIndex
      ensures Valid()
      ensures currentIndex == Resynced(old(currentIndex), totalQuestions)
    {
      if totalQuestions == 0 {
        currentIndex := 0;
        return;
      }
      if currentIndex > totalQuestions - 1 {
        currentIndex := 0;
      }
    }

    /** `goNext`: before the last question, start a transition and schedule
        a move forward; on the last one, ask for submission (`submit`); with
        no questions, do nothing. */
    method GoNext(totalQuestions: int) returns (submit: bool)
      requires Valid()
      modifies this
      ensures Valid()
      ensures currentIndex == old(currentIndex)
      ensures old(currentIndex) < totalQuestions - 1 ==>
        !submit && isTransitioning && pending == old(pending) + [Next]
      ensures old(currentIndex) >= totalQuestions - 1 ==>
        submit == (totalQuestions > 0) && isTransitioning == old(isTransitioning) && pending == old(pending)
    {
      if currentIndex < totalQuestions - 1 {
        isTransitioning := true;
        pending := pending + [Next];
        return false;
      }
      submit := totalQuestions > 0;
    }

    /** `goPrevious`: start a transition and schedule a move back. */
    method GoPrevious()
      requires Valid()
      modifies this
      ensures Valid()
      ensures currentIndex == old(currentIndex)
      ensures isTransitioning && pending == old(pending) + [Previous]
    {
      isTransitioning := true;
      pending := pending + [Previous];
    }

    /** The oldest scheduled timer fires. */
    method Fire()
      requires Valid() && pending != []
      modifies this
      ensures Valid()
      ensures currentIndex == Apply(old(pending)[0], old(currentIndex))
      ensures !isTransitioning && pending == old(pending)[1..]
    {
      currentIndex := Apply(pending[0], currentIndex);
      isTransitioning := false;
      pending := pending[1..];
    }
  }
}
