/**
 * The vocabulary view state (src/store/slices/vocabularySlice.ts): the loaded word sets,
 * the words of the current set, search results, the selected word, popular tags, and a
 * loading flag with the last error.
 *
 * Each asynchronous action has a pending, a fulfilled and a rejected case; only these
 * state transitions are modelled, with the fetched lists or the rejection's message as
 * parameters.
 */
module VocabularyView {
  import opened Wrappers
  import opened Types

  /** The error recorded when an action is rejected: the rejection's message, or the
      fallback text when that message is absent or empty. */
  function Rejection(code: string, message: Option<string>, fallback: string): (e: AppError)
    ensures e.code == code && (fallback != "" ==> e.message != "")
    ensures message.Some? && message.value != "" ==> e.message == message.value
    ensures (message.None? || message.value == "") ==> e.message == fallback
  {
    AppError(code, if message.Some? && message.value != "" then message.value else fallback)
  }

  const LoadWordSetsFailed := "加载单词库失败"
  const LoadWordsFailed := "加载单词失败"
  const SearchFailed := "搜索失败"

  /** The three rejected cases give three different error codes, each with a message. */
  lemma RejectionCodesDiffer(message: Option<string>)
    ensures var a := Rejection("LOAD_WORDSETS_ERROR", message, LoadWordSetsFailed);
            var b := Rejection("LOAD_WORDS_ERROR", message, LoadWordsFailed);
            var c := Rejection("SEARCH_ERROR", message, SearchFailed);
            a.code != b.code && b.code != c.code && a.code != c.code
            && a.message != "" && b.message != "" && c.message != ""
  {
  }

  class VocabularyState {
    var currentWordSet: seq<Word>
    var wordSets: seq<WordSet>
    var searchResults: seq<Word>
    var selectedWord: Option<Word>
    var loading: bool
    var error: Option<AppError>
    var popularTags: seq<string>

    /** The initial state: every list empty, nothing selected, not loading, no error. */
    constructor ()
      ensures currentWordSet == [] && wordSets == [] && searchResults == [] && popularTags == []
      ensures selectedWord == None && !loading && error == None
    {
      currentWordSet, wordSets, searchResults, popularTags := [], [], [], [];
      selectedWord, loading, error := None, false, None;
    }

    /** `selectWord(word)`. */
    method SelectWord(word: Word)
      modifies this
      ensures selectedWord == Some(word)
      ensures currentWordSet == old(currentWordSet) && wordSets == old(wordSets)
      ensures searchResults == old(searchResults) && popularTags == old(popularTags)
      ensures loading == old(loading) && error == old(error)
    {
      selectedWord := Some(word);
    }

    /** `clearError()`. */
    method ClearError()
      modifies this
      ensures error == None
      ensures currentWordSet == old(currentWordSet) && wordSets == old(wordSets)
      ensures searchResults == old(searchResults) && popularTags == old(popularTags)
      ensures selectedWord == old(selectedWord) && loading == old(loading)
    {
      error := None;
    }

    /** `clearSearchResults()`. */
    method ClearSearchResults()
      modifies this
      ensures searchResults == []
      ensures currentWordSet == old(currentWordSet) && wordSets == old(wordSets)
      ensures popularTags == old(popularTags) && selectedWord == old(selectedWord)
      ensures loading == old(loading) && error == old(error)
    {
      searchResults := [];
    }

    /** `loadWordSets.pending` and `loadWordsFromSet.pending`: loading, with any earlier
        error cleared. */
    method LoadPending()
      modifies this
      ensures loading && error == None
      ensures currentWordSet == old(currentWordSet) && wordSets == old(wordSets)
      ensures searchResults == old(searchResults) && popularTags == old(popularTags)
      ensures selectedWord == old(selectedWord)
    {
      loading := true;
      error := None;
    }

    /** `searchWords.pending`: loading, but an earlier error stays in place. */
    method SearchPending()
      modifies this
      ensures loading && error == old(error)
      ensures currentWordSet == old(currentWordSet) && wordSets == old(wordSets)
      ensures searchResults == old(searchResults) && popularTags == old(popularTags)
      ensures selectedWord == old(selectedWord)
    {
      loading := true;
    }

    /** `loadWordSets.fulfilled(sets)`. */
    method LoadWordSetsFulfilled(sets: seq<WordSet>)
      modifies this
      ensures !loading && wordSets == sets
      ensures currentWordSet == old(currentWordSet) && searchResults == old(searchResults)
      ensures popularTags == old(popularTags) && selectedWord == old(selectedWord) && error == old(error)
    {
      loading := false;
      wordSets := sets;
    }

    /** `loadWordsFromSet.fulfilled(words)`. */
    method LoadWordsFromSetFulfilled(words: seq<Word>)
      modifies this
      ensures !loading && currentWordSet == words
      ensures wordSets == old(wordSets) && searchResults == old(searchResults)
      ensures popularTags == old(popularTags) && selectedWord == old(selectedWord) && error == old(error)
    {
      loading := false;
      currentWordSet := words;
    }

    /** `searchWords.fulfilled(results)`. */
    method SearchFulfilled(results: seq<Word>)
      modifies this
      ensures !loading && searchResults == results
      ensures currentWordSet == old(currentWordSet) && wordSets == old(wordSets)
      ensures popularTags == old(popularTags) && selectedWord == old(selectedWord) && error == old(error)
    {
      loading := false;
      searchResults := results;
    }

    /** `loadWordSets.rejected`. */
    method LoadWordSetsRejected(message: Option<string>)
      modifies this
      ensures !loading && error == Some(Rejection("LOAD_WORDSETS_ERROR", message, LoadWordSetsFailed))
      ensures currentWordSet == old(currentWordSet) && wordSets == old(wordSets)
      ensures searchResults == old(searchResults) && popularTags == old(popularTags)
      ensures selectedWord == old(selectedWord)
    {
      loading := false;
      error := Some(Rejection("LOAD_WORDSETS_ERROR", message, LoadWordSetsFailed));
    }

    /** `loadWordsFromSet.rejected`. */
    method LoadWordsFromSetRejected(message: Option<string>)
      modifies this
      ensures !loading && error == Some(Rejection("LOAD_WORDS_ERROR", message, LoadWordsFailed))
      ensures currentWordSet == old(currentWordSet) && wordSets == old(wordSets)
      ensures searchResults == old(searchResults) && popularTags == old(popularTags)
      ensures selectedWord == old(selectedWord)
    {
      loading := false;
      error := Some(Rejection("LOAD_WORDS_ERROR", message, LoadWordsFailed));
    }

    /** `searchWords.rejected`. */
    method SearchRejected(message: Option<string>)
      modifies this
      ensures !loading && error == Some(Rejection("SEARCH_ERROR", message, SearchFailed))
      ensures currentWordSet == old(currentWordSet) && wordSets == old(wordSets)
      ensures searchResults == old(searchResults) && popularTags == old(popularTags)
      ensures selectedWord == old(selectedWord)
    {
      loading := false;
      error := Some(Rejection("SEARCH_ERROR", message, SearchFailed));
    }

    /** `loadPopularTags.fulfilled(tags)`: replaces the tags without touching the loading
        flag or the error (the action has no pending or rejected case). */
    method LoadPopularTagsFulfilled(tags: seq<string>)
      modifies this
      ensures popularTags == tags
      ensures currentWordSet == old(currentWordSet) && wordSets == old(wordSets)
      ensures searchResults == old(searchResults) && selectedWord == old(selectedWord)
      ensures loading == old(loading) && error == old(error)
    {
      popularTags := tags;
    }
  }

  /** A failed word-set load followed by a search: the search's pending case keeps the
      load's error, so it is still shown while the search runs and after it succeeds. */
  method ErrorSurvivesSearch(s: VocabularyState, results: seq<Word>)
    modifies s
    ensures s.error == Some(AppError("LOAD_WORDSETS_ERROR", LoadWordSetsFailed))
    ensures s.searchResults == results && !s.loading
  {
    s.LoadPending();
    s.LoadWordSetsRejected(None);
    s.SearchPending();
    s.SearchFulfilled(results);
  }
}
