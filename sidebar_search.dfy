/** The search box of the sidebar (src/components/SidebarSearch.jsx): the query
    being typed and the list of recent searches, at most five, most recent
    first, without repeats, mirrored under the store key `recent_searches`. */
module SidebarSearch {
  import opened Wrappers
  import opened Seqs
  import opened Text

  /** How many recent searches are kept. */
  const HistoryLimit: nat := 5

  /** The history without `term`, in order. */
  function Others(history: seq<string>, term: string): seq<string> {
    Filter(history, (s: string) => s != term)
  }

  /** `[term, ...history.filter(s => s !== term)].slice(0, 5)`. */
  function NewHistory(history: seq<string>, term: string): seq<string> {
    Take([term] + Others(history, term), HistoryLimit)
  }

  /** `JSON.parse(saved).slice(0, 5)`: the history read on mount. */
  function LoadedHistory(saved: seq<string>): (r: seq<string>)
    ensures |r| == if |saved| < HistoryLimit then |saved| else HistoryLimit
    ensures r <= saved
    ensures |saved| <= HistoryLimit ==> r == saved
  {
    Take(saved, HistoryLimit)
  }

  /** Taking from a sequence with a first element keeps that element. */
  lemma TakeCons(x: string, s: seq<string>, n: nat)
    ensures Take([x] + s, n + 1) == [x] + Take(s, n)
  {
    if |s| > n {
      assert ([x] + s)[..n + 1] == [x] + s[..n];
    }
  }

  /** After saving, the term is the first entry and occurs nowhere else, there
      are at most five entries, and the others are old entries kept in their
      old order. */
  lemma NewHistoryEffect(history: seq<string>, term: string)
    ensures 1 <= |NewHistory(history, term)| <= HistoryLimit
    ensures |NewHistory(history, term)| ==
              if 1 + |Others(history, term)| < HistoryLimit then 1 + |Others(history, term)| else HistoryLimit
    ensures NewHistory(history, term)[0] == term
    ensures term !in NewHistory(history, term)[1..]
    ensures NewHistory(history, term)[1..] <= Others(history, term)
    ensures IsSubsequence(NewHistory(history, term)[1..], history)
    ensures forall x :: x in NewHistory(history, term) ==> x == term || x in history
  {
    var keep := (s: string) => s != term;
    var rest := Filter(history, keep);
    TakeCons(term, rest, HistoryLimit - 1);
    var r := NewHistory(history, term);
    assert r[1..] == Take(rest, HistoryLimit - 1);
    FilterIsSubsequence(history, keep);
    SubsequencePrefix(rest, history, |r[1..]|);
    forall x | x in r ensures x == term || x in history {
      if x != term {
        assert x in r[1..];
        FilterMembership(history, keep, x);
      }
    }
  }

  /** Saving a term that is already in a history of at most five distinct
      entries moves it to the front and evicts nothing: the length stays and
      every old entry is kept. */
  lemma NewHistoryResave(history: seq<string>, term: string)
    requires term in history && |history| <= HistoryLimit && NoDuplicates(history)
    ensures |NewHistory(history, term)| == |history|
    ensures NewHistory(history, term) == [term] + Others(history, term)
    ensures forall x :: x in history ==> x in NewHistory(history, term)
  {
    var keep := (s: string) => s != term;
    var rest := Filter(history, keep);
    FilterDropsOne(history, keep, term);
    assert |[term] + rest| <= HistoryLimit;
    forall x | x in history ensures x in NewHistory(history, term) {
      FilterMembership(history, keep, x);
      if x != term {
        assert x in ([term] + rest)[1..];
      }
    }
  }

  /** While there is room, saving evicts nothing: every old entry is kept. */
  lemma NewHistoryKeepsAllWhenRoom(history: seq<string>, term: string)
    requires |history| < HistoryLimit
    ensures forall x :: x in history ==> x in NewHistory(history, term)
  {
    var keep := (s: string) => s != term;
    var rest := Filter(history, keep);
    assert |[term] + rest| <= HistoryLimit;
    forall x | x in history ensures x in NewHistory(history, term) {
      FilterMembership(history, keep, x);
      if x != term {
        assert x in ([term] + rest)[1..];
      }
    }
  }

  /** A new term goes in front, and the oldest entry falls off when the list
      is full. */
  lemma NewHistoryOfNewTerm(history: seq<string>, term: string)
    requires term !in history
    ensures NewHistory(history, term) == Take([term] + history, HistoryLimit)
  {
    FilterAllKept(history, (s: string) => s != term);
  }

  /** Saving the same term twice in a row is saving it once. */
  lemma NewHistoryIdempotent(history: seq<string>, term: string)
    ensures NewHistory(NewHistory(history, term), term) == NewHistory(history, term)
  {
    var keep := (s: string) => s != term;
    var rest := Filter(history, keep);
    var kept := Take(rest, HistoryLimit - 1);
    TakeCons(term, rest, HistoryLimit - 1);
    assert NewHistory(history, term) == [term] + kept;
    assert forall i :: 0 <= i < |kept| ==> keep(kept[i]) by {
      forall i | 0 <= i < |kept| ensures keep(kept[i]) {
        assert kept[i] == rest[i];
      }
    }
    FilterAllKept(kept, keep);
    assert Filter([term] + kept, keep) == Filter(kept, keep) by {
      assert ([term] + kept)[0] == term;
      assert ([term] + kept)[1..] == kept;
    }
    TakeCons(term, kept, HistoryLimit - 1);
  }

  /** A history without repeats stays without repeats. */
  lemma NewHistoryNoDuplicates(history: seq<string>, term: string)
    requires NoDuplicates(history)
    ensures NoDuplicates(NewHistory(history, term))
  {
    NewHistoryEffect(history, term);
    var r := NewHistory(history, term);
    SubsequenceNoDuplicates(r[1..], history);
    forall i, j | 0 <= i < j < |r| ensures r[i] != r[j] {
      if i == 0 {
        assert r[j] == r[1..][j - 1];
      } else {
        assert r[i] == r[1..][i - 1] && r[j] == r[1..][j - 1];
      }
    }
  }

  /** The search box's state. `reported` lists the values handed to the
      `onSearch` callback, oldest first. */
  class SearchBox {
    var query: string
    var recentSearches: seq<string>
    var storedRecentSearches: Option<seq<string>>
    var reported: seq<string>

    /** The in-memory history never exceeds its limit. */
    ghost predicate Valid()
      reads this
    {
      |recentSearches| <= HistoryLimit
    }

    /** Mounting over the stored `recent_searches` value, if any: the
        in-memory list is its first five entries; the store is not
        rewritten. */
    constructor (saved: Option<seq<string>>)
      ensures query == "" && reported == []
      ensures recentSearches == if saved.Some? then LoadedHistory(saved.value) else []
      ensures storedRecentSearches == saved
      ensures Valid()
    {
      query := "";
      reported := [];
      storedRecentSearches := saved;
      recentSearches := if saved.Some? then LoadedHistory(saved.value) else [];
    }

    /** `handleSearch`: the input's new value becomes the query. */
    method HandleSearch(value: string)
      modifies this`query
      ensures query == value
    {
      query := value;
    }

    /** The debounce timer fires: the current query is reported. */
    method DebounceElapsed()
      modifies this`reported
      ensures reported == old(reported) + [query]
    {
      reported := reported + [query];
    }

    /** `clearSearch`: empty the query and report the empty query at once. */
    method ClearSearch()
      modifies this`query, this`reported
      ensures query == ""
      ensures reported == old(reported) + [""]
    {
      query := "";
      reported := reported + [""];
    }

    /** `saveSearchToHistory`: a blank term changes nothing; otherwise the
        term moves to the front and the result is also stored. */
    method SaveSearchToHistory(term: string)
      requires Valid()
      modifies this`recentSearches, this`storedRecentSearches
      ensures Valid()
      ensures IsBlank(term) ==>
                recentSearches == old(recentSearches) && storedRecentSearches == old(storedRecentSearches)
      ensures !IsBlank(term) ==>
                recentSearches == NewHistory(old(recentSearches), term)
                && storedRecentSearches == Some(recentSearches)
    {
      if IsBlank(term) {
        return;
      }
      NewHistoryEffect(recentSearches, term);
      var newHistory := NewHistory(recentSearches, term);
      recentSearches := newHistory;
      storedRecentSearches := Some(newHistory);
    }

    /** `handleKeyDown` with Enter: save the current query. */
    method HandleEnter()
      requires Valid()
      modifies this`recentSearches, this`storedRecentSearches
      ensures Valid()
      ensures IsBlank(query) ==>
                recentSearches == old(recentSearches) && storedRecentSearches == old(storedRecentSearches)
      ensures !IsBlank(query) ==>
                recentSearches == NewHistory(old(recentSearches), query)
                && storedRecentSearches == Some(recentSearches)
    {
      SaveSearchToHistory(query);
    }

    /** `handleRecentClick`: a recent search becomes the query. */
    method HandleRecentClick(term: string)
      modifies this`query
      ensures query == term
    {
      query := term;
    }
  }
}
