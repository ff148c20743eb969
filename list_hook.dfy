/** The state the three list hooks (`useInspectors`, `useMCOfficers`,
    `useVehicleOwners`) keep: the fetched list, the filtered list shown, the
    loading flag, the error text and the search query. The hooks differ only
    in the service they call, their default error message and their filter
    callback, which the operations here take as arguments. */
module ListHook {
  import opened Js
  import opened Strings
  import opened Lists
  import opened Users

  /** `err.message || fallback` */
  function ErrorText(message: string, fallback: string): (e: string)
    ensures fallback != "" ==> e != ""
    ensures message != "" ==> e == message
  {
    if message != "" then message else fallback
  }

  class Hook {
    var list: seq<Record>
    var filtered: seq<Record>
    var isLoading: bool
    var error: Option<string>
    var searchQuery: string

    /** What is shown is always drawn, in order, from what was fetched. */
    predicate Valid()
      reads this
    {
      IsSubsequence(filtered, list)
    }

    /** The initial `useState` values. */
    constructor ()
      ensures list == [] && filtered == [] && isLoading && error == None && searchQuery == ""
      ensures Valid()
    {
      list := [];
      filtered := [];
      isLoading := true;
      error := None;
      searchQuery := "";
      SubsequenceReflexive<Record>([]);
    }

    /** What the filter effect leaves after it ran over the current list and
        query: the records the callback accepts, or, when the callback
        throws (reported in `thrown`), the whole list set just before. */
    predicate ShowsSearch(matches: string -> Record -> Result<bool>, thrown: Option<string>)
      reads this
    {
      var s := Search(list, searchQuery, matches(searchQuery));
      && (s.Ok? ==> thrown == None && filtered == s.value)
      && (s.Err? ==> thrown == Some(s.message) && filtered == list)
    }

    /** The load callback around a fetch that returned `fetched`: on success
        both lists become the data and the error stays cleared, and since the
        list changed, the filter effect runs again with the hook's callback;
        on failure the lists are kept, the effect does not run and the error
        is set. Loading ends either way. */
    method Load(fetched: Result<seq<Record>>, fallback: string, matches: string -> Record -> Result<bool>)
      returns (thrown: Option<string>)
      requires Valid()
      modifies this
      ensures Valid()
      ensures !isLoading && searchQuery == old(searchQuery)
      ensures fetched.Ok? ==> list == fetched.value && error == None && ShowsSearch(matches, thrown)
      ensures fetched.Ok? && IsBlank(searchQuery) ==> filtered == fetched.value
      ensures fetched.Err? ==>
        && list == old(list) && filtered == old(filtered) && thrown == None
        && error == Some(ErrorText(fetched.message, fallback))
    {
      isLoading := true;
      error := None;
      thrown := None;
      if fetched.Ok? {
        list := fetched.value;
        filtered := fetched.value;
        SubsequenceReflexive(list);
        thrown := FilterEffect(matches);
        FilterEffectMeaning(list, searchQuery, matches);
      } else {
        error := Some(ErrorText(fetched.message, fallback));
      }
      isLoading := false;
    }

    /** The filter effect with the hook's callback: a blank query shows the
        whole list, any other query the records the callback accepts. A
        callback that throws escapes the effect, reported in `thrown`, and
        leaves the filtered list as it was. */
    method FilterEffect(matches: string -> Record -> Result<bool>) returns (thrown: Option<string>)
      requires Valid()
      modifies this
      ensures Valid()
      ensures list == old(list) && searchQuery == old(searchQuery) && isLoading == old(isLoading) && error == old(error)
      ensures var s := Search(list, searchQuery, matches(searchQuery));
        && (s.Ok? ==> thrown == None && filtered == s.value)
        && (s.Err? ==> thrown == Some(s.message) && filtered == old(filtered))
    {
      var s := Search(list, searchQuery, matches(searchQuery));
      SearchMeaning(list, searchQuery, matches(searchQuery));
      if s.Err? {
        return Some(s.message);
      }
      if IsBlank(searchQuery) {
        SubsequenceReflexive(list);
      }
      filtered := s.value;
      thrown := None;
    }

    /** `setSearchQuery(q)`, after which the filter effect runs. */
    method SetSearchQuery(q: string, matches: string -> Record -> Result<bool>) returns (thrown: Option<string>)
      requires Valid()
      modifies this
      ensures Valid()
      ensures searchQuery == q && list == old(list) && isLoading == old(isLoading) && error == old(error)
      ensures var s := Search(list, q, matches(q));
        && (s.Ok? ==> thrown == None && filtered == s.value)
        && (s.Err? ==> thrown == Some(s.message) && filtered == old(filtered))
    {
      searchQuery := q;
      thrown := FilterEffect(matches);
    }
  }

  /** A blank query shows the whole list; otherwise the list shown is an
      order-preserving selection of the records the callback accepts. */
  lemma FilterEffectMeaning(list: seq<Record>, q: string, matches: string -> Record -> Result<bool>)
    ensures IsBlank(q) ==> Search(list, q, matches(q)) == Ok(list)
    ensures Search(list, q, matches(q)).Ok? ==> IsSubsequence(Search(list, q, matches(q)).value, list)
  {
    SearchMeaning(list, q, matches(q));
    if IsBlank(q) {
      SubsequenceReflexive(list);
    }
  }
}
