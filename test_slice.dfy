/**
 * The test state (src/store/slices/testSlice.ts): a cursor over a test's questions, the
 * answers given so far keyed by question id, and the results recorded in order.
 */
module Testing {
  import opened Wrappers
  import opened Types

  class TestState {
    var currentTest: Option<Test>
    var currentQuestion: int
    var results: seq<TestResult>
    var isTestActive: bool
    var timeRemaining: Option<int>
    var userAnswers: map<string, string>

    /** The cursor is never negative; without a test it is 0, and with one it is either 0
        or on one of the test's questions. */
    ghost predicate Valid()
      reads this
    {
      && 0 <= currentQuestion
      && (currentTest.None? ==> currentQuestion == 0)
      && (currentTest.Some? ==> currentQuestion == 0 || currentQuestion < |currentTest.value.questions|)
    }

    /** The initial state: no test, cursor 0, no results, inactive, no time limit, no answers. */
    ghost predicate IsInitial()
      reads this
    {
      && currentTest == None && currentQuestion == 0 && results == [] && !isTestActive
      && timeRemaining == None && userAnswers == map[]
    }

    constructor ()
      ensures IsInitial() && Valid()
    {
      currentTest, currentQuestion, results := None, 0, [];
      isTestActive, timeRemaining, userAnswers := false, None, map[];
    }

    /** `startTest(test)`: a fresh run of `test`, timed by its time limit. */
    method StartTest(test: Test)
      modifies this
      ensures Valid()
      ensures currentTest == Some(test) && currentQuestion == 0 && results == []
      ensures isTestActive && userAnswers == map[] && timeRemaining == test.timeLimit
    {
      currentTest := Some(test);
      currentQuestion := 0;
      results := [];
      isTestActive := true;
      userAnswers := map[];
      timeRemaining := test.timeLimit;
    }

    /** `nextQuestion()`: advances only when a test is loaded and a later question exists. */
    method NextQuestion()
      requires Valid()
      modifies this
      ensures Valid()
      ensures currentQuestion ==
        if old(currentTest).Some? && old(currentQuestion) < |old(currentTest).value.questions| - 1
        then old(currentQuestion) + 1 else old(currentQuestion)
      ensures currentTest == old(currentTest) && results == old(results) && isTestActive == old(isTestActive)
      ensures timeRemaining == old(timeRemaining) && userAnswers == old(userAnswers)
    {
      if currentTest.Some? && currentQuestion < |currentTest.value.questions| - 1 {
        currentQuestion := currentQuestion + 1;
      }
    }

    /** `previousQuestion()`: steps back whenever the cursor is past the first question,
        whether or not a test is loaded. */
    method PreviousQuestion()
      requires Valid()
      modifies this
      ensures Valid()
      ensures currentQuestion == if old(currentQuestion) > 0 then old(currentQuestion) - 1 else old(currentQuestion)
      ensures currentTest == old(currentTest) && results == old(results) && isTestActive == old(isTestActive)
      ensures timeRemaining == old(timeRemaining) && userAnswers == old(userAnswers)
    {
      if currentQuestion > 0 {
        currentQuestion := currentQuestion - 1;
      }
    }

    /** `submitAnswer({ questionId, answer })`: the latest answer to a question wins, and
        the answers to every other question stay as they were. */
    method SubmitAnswer(questionId: string, answer: string)
      modifies this
      ensures questionId in userAnswers && userAnswers[questionId] == answer
      ensures forall q | q != questionId :: (q in userAnswers <==> q in old(userAnswers))
      ensures forall q | q != questionId && q in userAnswers :: userAnswers[q] == old(userAnswers)[q]
      ensures currentTest == old(currentTest) && currentQuestion == old(currentQuestion)
      ensures results == old(results) && isTestActive == old(isTestActive) && timeRemaining == old(timeRemaining)
    {
      userAnswers := userAnswers[questionId := answer];
    }

    /** `addTestResult(result)`: appends one result after all earlier ones. */
    method AddTestResult(result: TestResult)
      modifies this
      ensures results == old(results) + [result]
      ensures currentTest == old(currentTest) && currentQuestion == old(currentQuestion)
      ensures isTestActive == old(isTestActive) && timeRemaining == old(timeRemaining)
      ensures userAnswers == old(userAnswers)
    {
      results := results + [result];
    }

    /** `endTest()`: only the active flag changes; answers, results and cursor are kept. */
    method EndTest()
      modifies this
      ensures !isTestActive
      ensures currentTest == old(currentTest) && currentQuestion == old(currentQuestion)
      ensures results == old(results) && timeRemaining == old(timeRemaining)
      ensures userAnswers == old(userAnswers)
    {
      isTestActive := false;
    }

    /** `updateTimeRemaining(t)`: sets the remaining time and nothing else. */
    method UpdateTimeRemaining(t: int)
      modifies this
      ensures timeRemaining == Some(t)
      ensures currentTest == old(currentTest) && currentQuestion == old(currentQuestion)
      ensures results == old(results) && isTestActive == old(isTestActive)
      ensures userAnswers == old(userAnswers)
    {
      timeRemaining := Some(t);
    }

    /** `resetTest()`: back to the initial state. */
    method ResetTest()
      modifies this
      ensures IsInitial() && Valid()
    {
      currentTest, currentQuestion, results := None, 0, [];
      isTestActive, timeRemaining, userAnswers := false, None, map[];
    }
  }

  /** Answering the same question twice keeps only the second answer; answering two
      different questions keeps both. */
  method AnswerTwice(s: TestState, q1: string, q2: string, a1: string, a2: string)
    modifies s
    ensures q1 in s.userAnswers && q2 in s.userAnswers
    ensures q1 == q2 ==> s.userAnswers[q1] == a2
    ensures q1 != q2 ==> s.userAnswers[q1] == a1 && s.userAnswers[q2] == a2
  {
    s.SubmitAnswer(q1, a1);
    s.SubmitAnswer(q2, a2);
  }
}
