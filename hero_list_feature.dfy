/**
 * `HeroListFeature`: the hero grid's state machine. It pages by offset, 20 heroes at a time, and
 * stops asking for more once a page comes back empty.
 */
module HeroList {
  import opened Wrappers
  import opened Models
  import opened Errors

  /** Heroes per request. */
  const PageSize := 20

  datatype State = State(
    heroes: seq<Hero>,
    isLoading: bool,
    errorMessage: Option<string>,
    searchQuery: string,
    canLoadMore: bool,
    page: int)

  /** `State()`: no heroes, idle, no query, more to load, page 0. */
  const Initial := State([], false, None, "", true, 0)

  datatype Action =
    | OnAppear
    | LoadMore
    | SearchQueryChanged(query: string)
    | HeroesResponse(result: Result<seq<Hero>, Error>)
    | Binding

  /**
   * What the reducer returns: nothing, a `.run` that fetches `limit` heroes from `offset` for the
   * query and answers with `HeroesResponse`, or `.send(.onAppear)`.
   */
  datatype Effect = NoEffect | FetchHeroes(limit: int, offset: int, query: string) | SendOnAppear

  datatype Transition = Transition(state: State, effect: Effect)

  /**
   * The reducer on one action. Every fetch asks for 20 heroes for the current query and marks the
   * state as loading: `onAppear` fetches the first 20 exactly when the grid is empty, clearing the
   * error, and `loadMore` fetches the page after the current one exactly when idle with more to
   * load; otherwise both change nothing. A new query empties the grid, goes back to page 0, allows
   * loading again and dispatches `onAppear`. A response ends the loading: an empty page stops
   * further loading, a non-empty one is appended, and a failure only records the error's text.
   * Only a new query turns loading back on; `binding` does nothing.
   */
  function Step(s: State, a: Action): (t: Transition)
    ensures t.effect.FetchHeroes? ==>
      t.state.isLoading && t.effect.limit == PageSize && t.effect.query == t.state.searchQuery
    ensures a.OnAppear? ==> (t.effect.FetchHeroes? <==> s.heroes == [])
    ensures a.OnAppear? && s.heroes == [] ==>
      t.state == s.(isLoading := true, errorMessage := None) && t.effect.offset == 0
    ensures a.LoadMore? ==> (t.effect.FetchHeroes? <==> !s.isLoading && s.canLoadMore)
    ensures a.LoadMore? && t.effect.FetchHeroes? ==>
      t.state == s.(isLoading := true, page := s.page + 1) && t.effect.offset == t.state.page * PageSize
    ensures (a.OnAppear? || a.LoadMore?) && !t.effect.FetchHeroes? ==> t == Transition(s, NoEffect)
    ensures a.SearchQueryChanged? ==>
      t.state == s.(searchQuery := a.query, page := 0, heroes := [], canLoadMore := true)
      && t.effect == SendOnAppear
    ensures a.HeroesResponse? ==>
      t.effect == NoEffect && !t.state.isLoading
      && t.state.searchQuery == s.searchQuery && t.state.page == s.page
    ensures a.HeroesResponse? && a.result.Success? ==>
      t.state.heroes == s.heroes + a.result.value
      && t.state.canLoadMore == (s.canLoadMore && a.result.value != [])
      && t.state.errorMessage == s.errorMessage
    ensures a.HeroesResponse? && a.result.Failure? ==>
      t.state == s.(isLoading := false, errorMessage := Some(LocalizedDescription(a.result.error)))
    ensures a.Binding? ==> t == Transition(s, NoEffect)
    ensures t.state.canLoadMore && !s.canLoadMore ==> a.SearchQueryChanged?
  {
    match a
    case OnAppear =>
      if s.heroes != [] then Transition(s, NoEffect)
      else Transition(s.(isLoading := true, errorMessage := None), FetchHeroes(PageSize, 0, s.searchQuery))
    case LoadMore =>
      if s.isLoading || !s.canLoadMore then Transition(s, NoEffect)
      else
        var s' := s.(isLoading := true, page := s.page + 1);
        Transition(s', FetchHeroes(PageSize, s'.page * PageSize, s'.searchQuery))
    case SearchQueryChanged(query) =>
      Transition(s.(searchQuery := query, page := 0, heroes := [], canLoadMore := true), SendOnAppear)
    case HeroesResponse(Success(incoming)) =>
      if incoming == [] then Transition(s.(isLoading := false, canLoadMore := false), NoEffect)
      else Transition(s.(isLoading := false, heroes := s.heroes + incoming), NoEffect)
    case HeroesResponse(Failure(e)) =>
      Transition(s.(isLoading := false, errorMessage := Some(LocalizedDescription(e))), NoEffect)
    case Binding =>
      Transition(s, NoEffect)
  }

  /** The reducer itself: `inout state` updated field by field, and the effect it returns. */
  method Reduce(state: State, action: Action) returns (s: State, effect: Effect)
    ensures Transition(s, effect) == Step(state, action)
  {
    s := state;
    effect := NoEffect;
    match action {
      case OnAppear =>
        if s.heroes != [] {
          return;
        }
        s := s.(isLoading := true);
        s := s.(errorMessage := None);
        effect := FetchHeroes(PageSize, 0, s.searchQuery);
      case LoadMore =>
        if s.isLoading || !s.canLoadMore {
          return;
        }
        s := s.(isLoading := true);
        s := s.(page := s.page + 1);
        var offset := s.page * PageSize;
        effect := FetchHeroes(PageSize, offset, s.searchQuery);
      case SearchQueryChanged(query) =>
        s := s.(searchQuery := query);
        s := s.(page := 0);
        s := s.(heroes := []);
        s := s.(canLoadMore := true);
        effect := SendOnAppear;
      case HeroesResponse(Success(incoming)) =>
        s := s.(isLoading := false);
        if incoming == [] {
          s := s.(canLoadMore := false);
        } else {
          s := s.(heroes := s.heroes + incoming);
        }
      case HeroesResponse(Failure(e)) =>
        s := s.(isLoading := false);
        s := s.(errorMessage := Some(LocalizedDescription(e)));
      case Binding =>
    }
  }

  /** One action as the store runs it: a `.send(.onAppear)` it returns is reduced straight away. */
  function Dispatch(s: State, a: Action): (r: Transition)
    ensures r.effect != SendOnAppear
    ensures !a.SearchQueryChanged? ==> r == Step(s, a)
    ensures a.SearchQueryChanged? ==> r.effect == FetchHeroes(PageSize, 0, a.query) && r.state.heroes == []
  {
    var t := Step(s, a);
    if t.effect == SendOnAppear then Step(t.state, OnAppear) else t
  }

  /**
   * A new query always fetches: the grid is emptied and the first 20 heroes for that query are
   * asked for, with the error cleared, whatever the state was.
   */
  lemma SearchAlwaysFetches(s: State, query: string)
    ensures Step(s, SearchQueryChanged(query)).effect == SendOnAppear
    ensures Dispatch(s, SearchQueryChanged(query))
            == Transition(s.(searchQuery := query, page := 0, heroes := [], canLoadMore := true,
                             isLoading := true, errorMessage := None),
                          FetchHeroes(PageSize, 0, query))
  {
  }

  /** The state after a sequence of actions. */
  function Run(s: State, actions: seq<Action>): State
    decreases |actions|
  {
    if actions == [] then s else Run(Step(s, actions[0]).state, actions[1..])
  }

  /** The effects a sequence of actions returns, one per action. */
  function Effects(s: State, actions: seq<Action>): (r: seq<Effect>)
    ensures |r| == |actions|
    decreases |actions|
  {
    if actions == [] then [] else [Step(s, actions[0]).effect] + Effects(Step(s, actions[0]).state, actions[1..])
  }

  predicate NoNewQuery(actions: seq<Action>) {
    forall i :: 0 <= i < |actions| ==> !actions[i].SearchQueryChanged?
  }

  /**
   * Once an empty page has stopped the loading, it stays stopped until a new query: no `loadMore`
   * in between fetches anything.
   */
  lemma {:induction false} StoppedUntilNewQuery(s: State, actions: seq<Action>)
    requires !s.canLoadMore && NoNewQuery(actions)
    ensures !Run(s, actions).canLoadMore
    ensures forall i :: 0 <= i < |actions| && actions[i].LoadMore? ==> Effects(s, actions)[i] == NoEffect
    decreases |actions|
  {
    if actions != [] {
      var next := Step(s, actions[0]).state;
      assert NoNewQuery(actions[1..]) by {
        forall i | 0 <= i < |actions[1..]| ensures !actions[1..][i].SearchQueryChanged? {
          assert actions[1..][i] == actions[i + 1];
        }
      }
      StoppedUntilNewQuery(next, actions[1..]);
      var rest := Effects(next, actions[1..]);
      assert Effects(s, actions) == [Step(s, actions[0]).effect] + rest;
      forall i | 0 <= i < |actions| && actions[i].LoadMore? ensures Effects(s, actions)[i] == NoEffect {
        if i > 0 {
          assert actions[1..][i - 1] == actions[i];
        }
      }
    }
  }

  /** Without a new query the grid only grows: the heroes shown stay, in order, at the front. */
  lemma {:induction false} HeroesOnlyGrow(s: State, actions: seq<Action>)
    requires NoNewQuery(actions)
    ensures |s.heroes| <= |Run(s, actions).heroes| && Run(s, actions).heroes[..|s.heroes|] == s.heroes
    decreases |actions|
  {
    if actions != [] {
      var next := Step(s, actions[0]).state;
      assert NoNewQuery(actions[1..]) by {
        forall i | 0 <= i < |actions[1..]| ensures !actions[1..][i].SearchQueryChanged? {
          assert actions[1..][i] == actions[i + 1];
        }
      }
      assert next.heroes[..|s.heroes|] == s.heroes;
      HeroesOnlyGrow(next, actions[1..]);
      var r := Run(next, actions[1..]);
      assert r.heroes[..|s.heroes|] == r.heroes[..|next.heroes|][..|s.heroes|];
    }
  }

  /**
   * The offset a failed `loadMore` asked for is not asked for again: the next `loadMore` moves on
   * by another 20.
   */
  lemma FailedPageSkipped(s: State, e: Error)
    requires !s.isLoading && s.canLoadMore
    ensures Effects(s, [LoadMore, HeroesResponse(Failure(e)), LoadMore])
            == [FetchHeroes(PageSize, (s.page + 1) * PageSize, s.searchQuery), NoEffect,
                FetchHeroes(PageSize, (s.page + 2) * PageSize, s.searchQuery)]
  {
    var actions := [LoadMore, HeroesResponse(Failure(e)), LoadMore];
    var s1 := Step(s, LoadMore).state;
    var s2 := Step(s1, actions[1]).state;
    var s3 := Step(s2, LoadMore).state;
    assert actions[1..] == [HeroesResponse(Failure(e)), LoadMore];
    assert actions[1..][1..] == [LoadMore];
    assert Effects(s2, [LoadMore]) == [FetchHeroes(PageSize, (s.page + 2) * PageSize, s.searchQuery)] + Effects(s3, []);
    assert Effects(s1, actions[1..]) == [NoEffect] + Effects(s2, [LoadMore]);
  }

  /** On appearing, the empty grid asks for the first 20 heroes; a page of one hero then fills it. */
  lemma AppearThenLoad(hero: Hero)
    ensures var actions := [OnAppear, HeroesResponse(Success([hero]))];
      Effects(Initial, actions) == [FetchHeroes(20, 0, ""), NoEffect]
      && Run(Initial, actions) == Initial.(heroes := [hero])
  {
    var actions := [OnAppear, HeroesResponse(Success([hero]))];
    var s1 := Step(Initial, OnAppear).state;
    var s2 := Step(s1, actions[1]).state;
    assert actions[1..] == [HeroesResponse(Success([hero]))];
    assert s2 == Initial.(heroes := [hero]);
    assert Effects(s1, actions[1..]) == [NoEffect] + Effects(s2, []);
    assert Run(s1, actions[1..]) == Run(s2, []);
  }
}
