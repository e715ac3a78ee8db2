/**
 * The study session state (src/store/slices/studySlice.ts): a cursor over the words of
 * one session, moved forward and back under guards, with a progress percentage.
 *
 * Each reducer is a method on the one `StudyState` object; `resetSession`, which
 * replaces the state by the initial value, reassigns every field.
 */
module Study {
  import opened Wrappers
  import opened Types

  /** The progress shown after a move: `index / length * 100`. */
  function Progress(index: nat, length: nat): (p: real)
    requires index < length
    ensures 0.0 <= p < 100.0
    ensures p == 0.0 <==> index == 0
  {
    (index as real / length as real) * 100.0
  }

  /** Moving the cursor forward raises the progress, moving it back lowers it. */
  lemma ProgressIncreases(i: nat, j: nat, length: nat)
    requires i < j < length
    ensures Progress(i, length) < Progress(j, length)
  {
    var n := length as real;
    assert i as real / n < j as real / n by {
      assert (j as real / n) - (i as real / n) == (j - i) as real / n;
    }
  }

  class StudyState {
    var currentSession: Option<StudySession>
    var currentWord: Option<Word>
    var sessionProgress: real
    var wordsInSession: seq<Word>
    var currentIndex: int
    var isSessionActive: bool

    /** The cursor is inside the session's words and the current word is the one under
        it; without words the cursor is at 0 and there is no current word. */
    ghost predicate Valid()
      reads this
    {
      if wordsInSession == [] then currentIndex == 0 && currentWord == None
      else 0 <= currentIndex < |wordsInSession| && currentWord == Some(wordsInSession[currentIndex])
    }

    /** The initial state: no session, no words, cursor and progress at 0, inactive. */
    ghost predicate IsInitial()
      reads this
    {
      && currentSession == None && currentWord == None && sessionProgress == 0.0
      && wordsInSession == [] && currentIndex == 0 && !isSessionActive
    }

    constructor ()
      ensures IsInitial() && Valid()
    {
      currentSession, currentWord, sessionProgress := None, None, 0.0;
      wordsInSession, currentIndex, isSessionActive := [], 0, false;
    }

    /** `startSession({ session, words })`: the first word of an empty list is
        `undefined`, which is no current word. */
    method StartSession(session: StudySession, words: seq<Word>)
      modifies this
      ensures Valid()
      ensures currentSession == Some(session) && wordsInSession == words && currentIndex == 0
      ensures currentWord == (if words == [] then None else Some(words[0]))
      ensures sessionProgress == 0.0 && isSessionActive
    {
      currentSession := Some(session);
      wordsInSession := words;
      currentIndex := 0;
      currentWord := if words == [] then None else Some(words[0]);
      sessionProgress := 0.0;
      isSessionActive := true;
    }

    /** `nextWord()`: advances only when a later word exists; otherwise nothing changes. */
    method NextWord()
      requires Valid()
      modifies this
      ensures Valid()
      ensures currentSession == old(currentSession) && wordsInSession == old(wordsInSession)
      ensures old(currentIndex) < |wordsInSession| - 1 ==>
        && currentIndex == old(currentIndex) + 1
        && currentWord == Some(wordsInSession[currentIndex])
        && sessionProgress == Progress(currentIndex, |wordsInSession|)
      ensures old(currentIndex) >= |wordsInSession| - 1 ==>
        currentIndex == old(currentIndex) && currentWord == old(currentWord) && sessionProgress == old(sessionProgress)
      ensures isSessionActive == old(isSessionActive)
    {
      if currentIndex < |wordsInSession| - 1 {
        currentIndex := currentIndex + 1;
        currentWord := Some(wordsInSession[currentIndex]);
        sessionProgress := Progress(currentIndex, |wordsInSession|);
      }
    }

    /** `previousWord()`: steps back only when the cursor is past the first word;
        otherwise nothing changes. */
    method PreviousWord()
      requires Valid()
      modifies this
      ensures Valid()
      ensures currentSession == old(currentSession) && wordsInSession == old(wordsInSession)
      ensures old(currentIndex) > 0 ==>
        && currentIndex == old(currentIndex) - 1
        && currentWord == Some(wordsInSession[currentIndex])
        && sessionProgress == Progress(currentIndex, |wordsInSession|)
      ensures old(currentIndex) <= 0 ==>
        currentIndex == old(currentIndex) && currentWord == old(currentWord) && sessionProgress == old(sessionProgress)
      ensures isSessionActive == old(isSessionActive)
    {
      if currentIndex > 0 {
        currentIndex := currentIndex - 1;
        currentWord := Some(wordsInSession[currentIndex]);
        sessionProgress := Progress(currentIndex, |wordsInSession|);
      }
    }

    /** `endSession()` at time `now`: inactive, progress 100, and the session (if any)
        stamped with its end time; the cursor and words stay. */
    method EndSession(now: Time)
      modifies this
      ensures !isSessionActive && sessionProgress == 100.0
      ensures currentSession == (if old(currentSession).Some? then Some(old(currentSession).value.(endTime := Some(now))) else None)
      ensures currentIndex == old(currentIndex) && currentWord == old(currentWord)
      ensures wordsInSession == old(wordsInSession)
    {
      isSessionActive := false;
      sessionProgress := 100.0;
      if currentSession.Some? {
        currentSession := Some(currentSession.value.(endTime := Some(now)));
      }
    }

    /** `updateSessionProgress(p)`: sets the progress and nothing else. */
    method UpdateSessionProgress(p: real)
      modifies this
      ensures sessionProgress == p
      ensures currentSession == old(currentSession) && currentWord == old(currentWord)
      ensures wordsInSession == old(wordsInSession) && currentIndex == old(currentIndex)
      ensures isSessionActive == old(isSessionActive)
    {
      sessionProgress := p;
    }

    /** `resetSession()`: back to the initial state. */
    method ResetSession()
      modifies this
      ensures IsInitial() && Valid()
    {
      currentSession, currentWord, sessionProgress := None, None, 0.0;
      wordsInSession, currentIndex, isSessionActive := [], 0, false;
    }
  }

  /** A session of three words: two moves forward reach the last word, a third move
      changes nothing, a move back returns to the middle word, and ending the session
      keeps the cursor and sets the progress to 100. */
  method WalkThreeWords(session: StudySession, a: Word, b: Word, c: Word, now: Time)
    returns (s: StudyState)
    ensures s.currentIndex == 1 && s.currentWord == Some(b)
    ensures !s.isSessionActive && s.sessionProgress == 100.0
  {
    s := new StudyState();
    s.StartSession(session, [a, b, c]);
    s.NextWord();
    s.NextWord();
    assert s.currentIndex == 2 && s.currentWord == Some(c);
    s.NextWord();
    assert s.currentIndex == 2;
    s.PreviousWord();
    s.EndSession(now);
  }
}
