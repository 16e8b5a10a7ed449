/**
 * `ArticleDetailsFeature`: one article and whether its share sheet is shown. No action returns an
 * effect, so the reducer is a function of the state alone.
 */
module ArticleDetails {
  import opened Models

  /** `article` is a `let`: no action can replace it. */
  datatype State = State(article: Article, isShareSheetPresented: bool)

  /** `State(article:)`: the article, with the share sheet hidden. */
  function Init(article: Article): (s: State)
    ensures s.article == article && !s.isShareSheetPresented
  {
    State(article, false)
  }

  datatype Action = OnAppear | OpenInBrowserTapped | ShareTapped | ShareDismissed

  /**
   * The reducer on one action: tapping share shows the sheet and dismissing hides it; appearing and
   * opening in the browser, which the view handles, change nothing. The article is never touched.
   */
  function Step(s: State, a: Action): (r: State)
    ensures r.article == s.article
    ensures a.ShareTapped? ==> r.isShareSheetPresented
    ensures a.ShareDismissed? ==> !r.isShareSheetPresented
    ensures a.OnAppear? || a.OpenInBrowserTapped? ==> r == s
  {
    match a
    case OnAppear => s
    case OpenInBrowserTapped => s
    case ShareTapped => s.(isShareSheetPresented := true)
    case ShareDismissed => s.(isShareSheetPresented := false)
  }

  /** The reducer itself, updating `inout state` in place. */
  method Reduce(state: State, action: Action) returns (s: State)
    ensures s == Step(state, action)
  {
    s := state;
    match action {
      case OnAppear =>
      case OpenInBrowserTapped =>
      case ShareTapped =>
        s := s.(isShareSheetPresented := true);
      case ShareDismissed =>
        s := s.(isShareSheetPresented := false);
    }
  }

  /** Tapping share twice is the same as tapping it once. */
  lemma ShareIdempotent(s: State)
    ensures Step(Step(s, ShareTapped), ShareTapped) == Step(s, ShareTapped)
  {
  }

  /** The state after a sequence of actions. */
  function Run(s: State, actions: seq<Action>): State
    decreases |actions|
  {
    if actions == [] then s else Run(Step(s, actions[0]), actions[1..])
  }

  /**
   * Whether the sheet is shown after `actions`, read from the end: the last share or dismiss
   * decides, and without one the sheet stays as it was.
   */
  function ShownAfter(shown: bool, actions: seq<Action>): bool
    decreases |actions|
  {
    if actions == [] then shown
    else
      match actions[|actions| - 1]
      case ShareTapped => true
      case ShareDismissed => false
      case _ => ShownAfter(shown, actions[..|actions| - 1])
  }

  lemma {:induction false} RunSnoc(s: State, actions: seq<Action>, a: Action)
    ensures Run(s, actions + [a]) == Step(Run(s, actions), a)
    decreases |actions|
  {
    if actions != [] {
      assert (actions + [a])[1..] == actions[1..] + [a];
      RunSnoc(Step(s, actions[0]), actions[1..], a);
    } else {
      assert actions + [a] == [a];
    }
  }

  /**
   * Over any sequence of actions the article stays the one shown, and the sheet is shown exactly
   * when the last share or dismiss was a share.
   */
  lemma {:induction false} RunDecidedByLastShare(s: State, actions: seq<Action>)
    ensures Run(s, actions) == s.(isShareSheetPresented := ShownAfter(s.isShareSheetPresented, actions))
    decreases |actions|
  {
    if actions != [] {
      var front := actions[..|actions| - 1];
      assert actions == front + [actions[|actions| - 1]];
      RunDecidedByLastShare(s, front);
      RunSnoc(s, front, actions[|actions| - 1]);
    }
  }

  /** A fresh screen shows the article with the sheet hidden until share is tapped. */
  lemma FreshScreenThenShare(article: Article)
    ensures Run(Init(article), [OnAppear, OpenInBrowserTapped]) == Init(article)
    ensures Run(Init(article), [OnAppear, ShareTapped]) == State(article, true)
  {
    RunDecidedByLastShare(Init(article), [OnAppear, OpenInBrowserTapped]);
    RunDecidedByLastShare(Init(article), [OnAppear, ShareTapped]);
    assert [OnAppear, OpenInBrowserTapped][..1] == [OnAppear];
    assert [OnAppear][..0] == [];
  }
}
