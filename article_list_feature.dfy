/**
 * `ArticleListFeature`: the article list screen's state machine. The `fetch` effect is returned as
 * a descriptor; its outcome comes back later as an `ArticlesResponse` action.
 */
module ArticleList {
  import opened Wrappers
  import opened Models
  import opened NetworkErrors
  import opened Errors
  import opened ArticlesDataSource

  /** The hard cap on the number of articles the list holds. */
  const MaxItems := 100

  datatype State = State(
    items: seq<Article>,
    isLoading: bool,
    errorMessage: Option<string>,
    searchQuery: string,
    page: int,
    total: int)
  {
    /** `canLoadMore`: fewer items than both the reported total and the cap. */
    predicate CanLoadMore()
      ensures CanLoadMore() <==> |items| < total && |items| < MaxItems
    {
      |items| < Min(total, MaxItems)
    }

    /** What every state the reducer reaches satisfies: within the cap, on page 1 or later. */
    predicate Valid() {
      |items| <= MaxItems && page >= 1
    }
  }

  /** `State()`: empty, idle, no query, page 1. */
  const Initial := State([], false, None, "", 1, 0)

  datatype Action =
    | OnAppear
    | LoadMore
    | SearchQueryChanged(query: string)
    | ArticlesResponse(result: Result<ArticlesPage, Error>)

  /** The `.run` effect: `fetch(query, page)`, answered later by an `ArticlesResponse`. */
  datatype Fetch = Fetch(query: string, page: int)

  datatype Transition = Transition(state: State, effect: Option<Fetch>)

  /** `Array(s.prefix(n))`: the first `n` elements, or all of `s` when it is shorter. */
  function Prefix<T>(s: seq<T>, n: nat): (r: seq<T>)
    ensures |r| == Min(|s|, n) && r == s[..|r|]
  {
    if |s| <= n then s else s[..n]
  }

  /**
   * The reducer on one action. Every fetch it asks for is for the query and page the new state
   * holds, and marks the state as loading. `onAppear` fetches exactly when the list is empty and
   * `loadMore` exactly when idle with more to load, moving to the next page; otherwise both change
   * nothing. A new query restarts from page 1 but keeps the error message. A response ends the
   * loading: the first page replaces the items with at most 100 new ones, a later page appends
   * new ones up to the cap behind the old items, and a failure only records the error's text.
   * The cap and page 1 as a floor are kept.
   */
  function Step(s: State, a: Action): (t: Transition)
    ensures s.Valid() ==> t.state.Valid()
    ensures t.effect.Some? ==> t.state.isLoading && t.effect.value == Fetch(t.state.searchQuery, t.state.page)
    ensures a.OnAppear? ==> (t.effect.Some? <==> s.items == [])
    ensures a.OnAppear? && s.items == [] ==> t.state == s.(isLoading := true)
    ensures a.LoadMore? ==> (t.effect.Some? <==> !s.isLoading && s.CanLoadMore())
    ensures a.LoadMore? && t.effect.Some? ==> t.state == s.(isLoading := true, page := s.page + 1)
    ensures (a.OnAppear? || a.LoadMore?) && t.effect.None? ==> t.state == s
    ensures a.SearchQueryChanged? ==>
      t.state == Initial.(searchQuery := a.query, isLoading := true, errorMessage := s.errorMessage)
      && t.effect == Some(Fetch(a.query, 1))
    ensures a.ArticlesResponse? ==>
      t.effect.None? && !t.state.isLoading
      && t.state.searchQuery == s.searchQuery && t.state.page == s.page
    ensures a.ArticlesResponse? && a.result.Success? ==>
      t.state.total == a.result.value.total && t.state.errorMessage == s.errorMessage
    ensures a.ArticlesResponse? && a.result.Success? && s.page == 1 ==>
      var incoming := a.result.value.articles;
      |t.state.items| == Min(|incoming|, MaxItems) && t.state.items == incoming[..|t.state.items|]
    ensures a.ArticlesResponse? && a.result.Success? && s.page != 1 ==>
      var incoming, kept := a.result.value.articles, |s.items|;
      |t.state.items| == kept + Min(|incoming|, Max(0, MaxItems - kept))
      && t.state.items[..kept] == s.items && t.state.items[kept..] == incoming[..|t.state.items| - kept]
    ensures a.ArticlesResponse? && a.result.Failure? ==>
      t.state == s.(isLoading := false, errorMessage := Some(LocalizedDescription(a.result.error)))
  {
    match a
    case OnAppear =>
      if s.items != [] then Transition(s, None)
      else
        var s' := s.(isLoading := true);
        Transition(s', Some(Fetch(s'.searchQuery, s'.page)))
    case LoadMore =>
      if s.isLoading || !s.CanLoadMore() then Transition(s, None)
      else
        var s' := s.(isLoading := true, page := s.page + 1);
        Transition(s', Some(Fetch(s'.searchQuery, s'.page)))
    case SearchQueryChanged(query) =>
      Transition(s.(searchQuery := query, page := 1, items := [], total := 0, isLoading := true),
                 Some(Fetch(query, 1)))
    case ArticlesResponse(Success(ArticlesPage(incoming, total))) =>
      var remaining := Max(0, MaxItems - |s.items|);
      var items :=
        if s.page == 1 then Prefix(incoming, MaxItems)
        else if remaining > 0 then s.items + Prefix(incoming, remaining)
        else s.items;
      Transition(s.(isLoading := false, total := total, items := items), None)
    case ArticlesResponse(Failure(e)) =>
      Transition(s.(isLoading := false, errorMessage := Some(LocalizedDescription(e))), None)
  }

  /** The reducer itself: `inout state` updated field by field, and the effect it returns. */
  method Reduce(state: State, action: Action) returns (s: State, effect: Option<Fetch>)
    ensures Transition(s, effect) == Step(state, action)
  {
    s := state;
    effect := None;
    match action {
      case OnAppear =>
        if s.items != [] {
          return;
        }
        s := s.(isLoading := true);
        effect := Some(Fetch(s.searchQuery, s.page));
      case LoadMore =>
        if s.isLoading || !s.CanLoadMore() {
          return;
        }
        s := s.(isLoading := true);
        s := s.(page := s.page + 1);
        effect := Some(Fetch(s.searchQuery, s.page));
      case SearchQueryChanged(query) =>
        s := s.(searchQuery := query);
        s := s.(page := 1);
        s := s.(items := []);
        s := s.(total := 0);
        s := s.(isLoading := true);
        effect := Some(Fetch(query, 1));
      case ArticlesResponse(Success(ArticlesPage(incoming, total))) =>
        s := s.(isLoading := false);
        s := s.(total := total);
        if s.page == 1 {
          s := s.(items := Prefix(incoming, MaxItems));
        } else {
          var remaining := Max(0, MaxItems - |s.items|);
          if remaining > 0 {
            s := s.(items := s.items + Prefix(incoming, remaining));
          }
        }
      case ArticlesResponse(Failure(e)) =>
        s := s.(isLoading := false);
        s := s.(errorMessage := Some(LocalizedDescription(e)));
    }
  }

  /** The state after a sequence of actions. */
  function Run(s: State, actions: seq<Action>): State
    decreases |actions|
  {
    if actions == [] then s else Run(Step(s, actions[0]).state, actions[1..])
  }

  /** The effects a sequence of actions returns, one per action. */
  function Effects(s: State, actions: seq<Action>): (r: seq<Option<Fetch>>)
    ensures |r| == |actions|
    decreases |actions|
  {
    if actions == [] then [] else [Step(s, actions[0]).effect] + Effects(Step(s, actions[0]).state, actions[1..])
  }

  /** Whatever the actions, the list never holds more than 100 articles and the page never drops below 1. */
  lemma {:induction false} RunKeepsValid(s: State, actions: seq<Action>)
    requires s.Valid()
    ensures Run(s, actions).Valid()
    decreases |actions|
  {
    if actions != [] {
      RunKeepsValid(Step(s, actions[0]).state, actions[1..]);
    }
  }

  /** From the initial state, every reachable list is within the cap. */
  lemma ReachableWithinCap(actions: seq<Action>)
    ensures |Run(Initial, actions).items| <= MaxItems && Run(Initial, actions).page >= 1
  {
    RunKeepsValid(Initial, actions);
  }

  /** Past the first page and without a new query, the articles already shown stay, in order, at the front. */
  lemma {:induction false} LaterPagesKeepItems(s: State, actions: seq<Action>)
    requires s.page > 1
    requires forall i :: 0 <= i < |actions| ==> !actions[i].SearchQueryChanged?
    ensures |s.items| <= |Run(s, actions).items| && Run(s, actions).items[..|s.items|] == s.items
    decreases |actions|
  {
    if actions != [] {
      var next := Step(s, actions[0]).state;
      assert |s.items| <= |next.items| && next.items[..|s.items|] == s.items;
      LaterPagesKeepItems(next, actions[1..]);
      var r := Run(next, actions[1..]);
      assert r.items[..|s.items|] == r.items[..|next.items|][..|s.items|];
    }
  }

  /** Once an error is shown, no action clears it: only a later error replaces its text. */
  lemma {:induction false} ErrorNeverCleared(s: State, actions: seq<Action>)
    requires s.errorMessage.Some?
    ensures Run(s, actions).errorMessage.Some?
    decreases |actions|
  {
    if actions != [] {
      ErrorNeverCleared(Step(s, actions[0]).state, actions[1..]);
    }
  }

  /**
   * The page a failed `loadMore` asked for is not asked for again: the next `loadMore` moves on
   * to the page after it.
   */
  lemma FailedPageSkipped(s: State, e: Error)
    requires !s.isLoading && s.CanLoadMore()
    ensures Effects(s, [LoadMore, ArticlesResponse(Failure(e)), LoadMore])
            == [Some(Fetch(s.searchQuery, s.page + 1)), None, Some(Fetch(s.searchQuery, s.page + 2))]
  {
    var s1 := Step(s, LoadMore).state;
    var s2 := Step(s1, ArticlesResponse(Failure(e))).state;
    assert s2.items == s.items && s2.total == s.total && !s2.isLoading;
    var actions := [LoadMore, ArticlesResponse(Failure(e)), LoadMore];
    assert actions[1..] == [ArticlesResponse(Failure(e)), LoadMore];
    assert actions[1..][1..] == [LoadMore];
    var s3 := Step(s2, LoadMore).state;
    assert Effects(s2, [LoadMore]) == [Some(Fetch(s.searchQuery, s.page + 2))] + Effects(s3, []);
    assert Effects(s1, actions[1..]) == [None] + Effects(s2, [LoadMore]);
  }

  /** A first page of 150 articles is cut to its first 100. */
  lemma FirstPageCut(s: State, incoming: seq<Article>, total: int)
    requires s.page == 1 && |incoming| == 150
    ensures Step(s, ArticlesResponse(Success(ArticlesPage(incoming, total)))).state.items == incoming[..MaxItems]
  {
  }

  /** 98 articles and a later page of 10 give 100: the first 2 new ones join the old 98. */
  lemma LaterPageFillsToCap(s: State, incoming: seq<Article>, total: int)
    requires s.page > 1 && |s.items| == 98 && |incoming| == 10
    ensures Step(s, ArticlesResponse(Success(ArticlesPage(incoming, total)))).state.items == s.items + incoming[..2]
  {
    var r := Step(s, ArticlesResponse(Success(ArticlesPage(incoming, total)))).state.items;
    assert r == r[..98] + r[98..];
  }

  /** On appearing, the empty list asks for page 1 of everything; three articles then fill it. */
  lemma AppearThenLoad(articles: seq<Article>)
    requires |articles| == 3
    ensures var actions := [OnAppear, ArticlesResponse(Success(ArticlesPage(articles, 3)))];
      Effects(Initial, actions) == [Some(Fetch("", 1)), None]
      && Run(Initial, actions) == Initial.(items := articles, total := 3)
  {
    var actions := [OnAppear, ArticlesResponse(Success(ArticlesPage(articles, 3)))];
    assert actions[1..] == [ArticlesResponse(Success(ArticlesPage(articles, 3)))];
    var s1 := Step(Initial, OnAppear).state;
    var s2 := Step(s1, actions[1]).state;
    assert s2 == Initial.(items := articles, total := 3);
    assert Effects(s1, actions[1..]) == [None] + Effects(s2, []);
    assert Effects(Initial, actions) == [Some(Fetch("", 1))] + Effects(s1, actions[1..]);
    assert Run(s1, actions[1..]) == Run(s2, []);
  }

  /** A server error on the first load ends the loading and shows "Request failed with status code 500.". */
  lemma AppearThenServerError()
    ensures var r := Run(Initial, [OnAppear, ArticlesResponse(Failure(Network(RequestFailed(500))))]);
      !r.isLoading && r.items == [] && r.errorMessage == Some("Request failed with status code 500.")
  {
    var actions := [OnAppear, ArticlesResponse(Failure(Network(RequestFailed(500))))];
    assert actions[1..] == [ArticlesResponse(Failure(Network(RequestFailed(500))))];
    Describe500();
  }
}
