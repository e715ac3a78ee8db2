/**
 * The user profile state (src/store/slices/userSlice.ts): the user's id, study
 * preferences and progress counters, and whether the profile has been initialised.
 *
 * A `Partial<…>` payload is a patch whose every field is optional; spreading it over the
 * current record overwrites exactly the fields it carries.
 */
module User {
  import opened Wrappers
  import opened Types
  import opened Validation

  /** The preferences of a new user: 20 words a day, spaced review, the two easiest
      difficulty levels, audio on, autoplay off, no reminder and no theme. */
  function InitialPreferences(): (p: StudyPreferences)
    ensures p.dailyGoal == 20 && p.reviewMode == Spaced.Tag()
    ensures p.difficultyPreference == [Beginner.Value(), Elementary.Value()]
  {
    StudyPreferences(20, "spaced", [1, 2], true, false, None, None, None)
  }

  /** The progress of a new user: every counter 0, and a week of zeros. */
  function InitialProgress(): (p: ProgressStats)
    ensures p.totalWordsStudied == 0 && p.masteredWords == 0 && p.studyStreak == 0
    ensures p.totalStudyTime == 0 && p.averageAccuracy == 0.0
    ensures |p.weeklyProgress| == 7 && forall i | 0 <= i < 7 :: p.weeklyProgress[i] == 0
  {
    ProgressStats(0, 0, 0, 0, 0.0, [0, 0, 0, 0, 0, 0, 0])
  }

  /** The preferences a new user starts with pass the preference validator. */
  lemma InitialPreferencesAreValid()
    ensures ValidateStudyPreferences(InitialPreferences())
  {
    ValidateStudyPreferencesExactly(InitialPreferences(), InitialPreferences());
  }

  /** A `Partial<StudyPreferences>`: `None` is a field the payload leaves out. */
  datatype PreferencesPatch = PreferencesPatch(
    dailyGoal: Option<int>,
    reviewMode: Option<string>,
    difficultyPreference: Option<seq<int>>,
    enableAudio: Option<bool>,
    autoPlay: Option<bool>,
    studyReminder: Option<bool>,
    reminderTime: Option<string>,
    theme: Option<Theme>)

  const EmptyPreferencesPatch := PreferencesPatch(None, None, None, None, None, None, None, None)

  /** `{ ...p, ...patch }`. */
  function MergePreferences(p: StudyPreferences, patch: PreferencesPatch): StudyPreferences {
    StudyPreferences(
      patch.dailyGoal.GetOr(p.dailyGoal),
      patch.reviewMode.GetOr(p.reviewMode),
      patch.difficultyPreference.GetOr(p.difficultyPreference),
      patch.enableAudio.GetOr(p.enableAudio),
      patch.autoPlay.GetOr(p.autoPlay),
      if patch.studyReminder.Some? then patch.studyReminder else p.studyReminder,
      if patch.reminderTime.Some? then patch.reminderTime else p.reminderTime,
      if patch.theme.Some? then patch.theme else p.theme)
  }

  /** Spreading `patch` then `later` over preferences is spreading the two patches'
      combination once, with `later`'s fields winning. */
  function OverlayPreferences(patch: PreferencesPatch, later: PreferencesPatch): PreferencesPatch {
    PreferencesPatch(
      if later.dailyGoal.Some? then later.dailyGoal else patch.dailyGoal,
      if later.reviewMode.Some? then later.reviewMode else patch.reviewMode,
      if later.difficultyPreference.Some? then later.difficultyPreference else patch.difficultyPreference,
      if later.enableAudio.Some? then later.enableAudio else patch.enableAudio,
      if later.autoPlay.Some? then later.autoPlay else patch.autoPlay,
      if later.studyReminder.Some? then later.studyReminder else patch.studyReminder,
      if later.reminderTime.Some? then later.reminderTime else patch.reminderTime,
      if later.theme.Some? then later.theme else patch.theme)
  }

  /** A merge overwrites exactly the fields the patch carries: an empty patch changes
      nothing, applying a patch twice is applying it once, and two patches in a row are
      their overlay. */
  lemma MergePreferencesLaws(p: StudyPreferences, patch: PreferencesPatch, later: PreferencesPatch)
    ensures MergePreferences(p, EmptyPreferencesPatch) == p
    ensures MergePreferences(MergePreferences(p, patch), patch) == MergePreferences(p, patch)
    ensures MergePreferences(MergePreferences(p, patch), later) == MergePreferences(p, OverlayPreferences(patch, later))
  {
  }

  /** A patch that leaves the daily goal and review mode alone keeps the preferences
      valid, and one that sets the daily goal to 0 makes them invalid. */
  lemma MergeAndValidity(p: StudyPreferences, patch: PreferencesPatch)
    ensures patch.dailyGoal.None? && patch.reviewMode.None? ==>
      ValidateStudyPreferences(MergePreferences(p, patch)) == ValidateStudyPreferences(p)
    ensures patch.dailyGoal == Some(0) ==> !ValidateStudyPreferences(MergePreferences(p, patch))
  {
    ValidateStudyPreferencesExactly(p, MergePreferences(p, patch));
  }

  /** A `Partial<ProgressStats>`. */
  datatype ProgressPatch = ProgressPatch(
    totalWordsStudied: Option<int>,
    masteredWords: Option<int>,
    studyStreak: Option<int>,
    totalStudyTime: Option<int>,
    averageAccuracy: Option<real>,
    weeklyProgress: Option<seq<int>>)

  const EmptyProgressPatch := ProgressPatch(None, None, None, None, None, None)

  /** `{ ...p, ...patch }`. */
  function MergeProgress(p: ProgressStats, patch: ProgressPatch): ProgressStats {
    ProgressStats(
      patch.totalWordsStudied.GetOr(p.totalWordsStudied),
      patch.masteredWords.GetOr(p.masteredWords),
      patch.studyStreak.GetOr(p.studyStreak),
      patch.totalStudyTime.GetOr(p.totalStudyTime),
      patch.averageAccuracy.GetOr(p.averageAccuracy),
      patch.weeklyProgress.GetOr(p.weeklyProgress))
  }

  /** An empty progress patch changes nothing, a patch applied twice is applied once, and
      a patch carrying every field replaces the whole record. */
  lemma MergeProgressLaws(p: ProgressStats, patch: ProgressPatch, q: ProgressStats)
    ensures MergeProgress(p, EmptyProgressPatch) == p
    ensures MergeProgress(MergeProgress(p, patch), patch) == MergeProgress(p, patch)
    ensures MergeProgress(p, ProgressPatch(Some(q.totalWordsStudied), Some(q.masteredWords),
      Some(q.studyStreak), Some(q.totalStudyTime), Some(q.averageAccuracy), Some(q.weeklyProgress))) == q
  {
  }

  class UserState {
    var id: string
    var preferences: StudyPreferences
    var progress: ProgressStats
    var isInitialized: bool

    /** The initial state: the default user, the initial preferences and progress, not
        yet initialised. */
    constructor ()
      ensures id == "default-user" && preferences == InitialPreferences()
      ensures progress == InitialProgress() && !isInitialized
    {
      id := "default-user";
      preferences := InitialPreferences();
      progress := InitialProgress();
      isInitialized := false;
    }

    /** `initializeUser({ id })`: sets the id and marks the profile initialised. */
    method InitializeUser(newId: string)
      modifies this
      ensures id == newId && isInitialized
      ensures preferences == old(preferences) && progress == old(progress)
    {
      id := newId;
      isInitialized := true;
    }

    /** `updatePreferences(patch)`. */
    method UpdatePreferences(patch: PreferencesPatch)
      modifies this
      ensures preferences == MergePreferences(old(preferences), patch)
      ensures id == old(id) && progress == old(progress) && isInitialized == old(isInitialized)
    {
      preferences := MergePreferences(preferences, patch);
    }

    /** `updateProgress(patch)`. */
    method UpdateProgress(patch: ProgressPatch)
      modifies this
      ensures progress == MergeProgress(old(progress), patch)
      ensures id == old(id) && preferences == old(preferences) && isInitialized == old(isInitialized)
    {
      progress := MergeProgress(progress, patch);
    }

    /** `incrementWordsStudied(n)`: adds `n` to one counter. */
    method IncrementWordsStudied(n: int)
      modifies this
      ensures progress == old(progress).(totalWordsStudied := old(progress).totalWordsStudied + n)
      ensures id == old(id) && preferences == old(preferences) && isInitialized == old(isInitialized)
    {
      progress := progress.(totalWordsStudied := progress.totalWordsStudied + n);
    }

    /** `incrementStudyTime(n)`: adds `n` to one counter. */
    method IncrementStudyTime(n: int)
      modifies this
      ensures progress == old(progress).(totalStudyTime := old(progress).totalStudyTime + n)
      ensures id == old(id) && preferences == old(preferences) && isInitialized == old(isInitialized)
    {
      progress := progress.(totalStudyTime := progress.totalStudyTime + n);
    }

    /** `updateStudyStreak(n)`: replaces the streak only. */
    method UpdateStudyStreak(n: int)
      modifies this
      ensures progress == old(progress).(studyStreak := n)
      ensures id == old(id) && preferences == old(preferences) && isInitialized == old(isInitialized)
    {
      progress := progress.(studyStreak := n);
    }

    /** `updateWeeklyProgress(week)`: replaces the weekly figures only. */
    method UpdateWeeklyProgress(week: seq<int>)
      modifies this
      ensures progress == old(progress).(weeklyProgress := week)
      ensures id == old(id) && preferences == old(preferences) && isInitialized == old(isInitialized)
    {
      progress := progress.(weeklyProgress := week);
    }
  }

  /** Incrementing a counter is `updateProgress` with a patch carrying the new total. */
  lemma IncrementIsPatch(p: ProgressStats, n: int)
    ensures p.(totalWordsStudied := p.totalWordsStudied + n) ==
      MergeProgress(p, EmptyProgressPatch.(totalWordsStudied := Some(p.totalWordsStudied + n)))
    ensures p.(totalStudyTime := p.totalStudyTime + n) ==
      MergeProgress(p, EmptyProgressPatch.(totalStudyTime := Some(p.totalStudyTime + n)))
  {
  }
}
