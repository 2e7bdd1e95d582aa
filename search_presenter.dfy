/**
 * The search presenter (Presenter/SearchPresenter.swift): it holds the photos of the
 * last successful search, answers the grid's count and item questions, and tells its
 * output about loading, new results and errors.
 *
 * `search` starts a request whose completion arrives later. Here it is two calls:
 * `Start` does what `search` does before the request, and `Complete(result)` is the
 * completion closure. `Search` runs both for a request whose outcome is given.
 * The output is held weakly by the source; `outputAttached` says whether it is still there.
 */
module Presenter {
  import opened Wrappers
  import opened Model
  import opened PhotoAPI

  /** What a search hands to the completion closure. */
  type SearchResult = Result<seq<PhotoModel>, APIResponseError>

  /** The calls the presenter makes on its output (`SearchPresenterOutput`). */
  datatype Notification =
    | DisplayUpdate(loading: bool)
    | Update(photoModels: seq<PhotoModel>)
    | GetError(error: APIResponseError)

  /**
   * The photos held after the completions `history`, oldest first: those of the latest
   * success, or the initial empty list when none succeeded.
   */
  function LastSuccess(history: seq<SearchResult>): seq<PhotoModel>
  {
    if history == [] then []
    else if history[|history| - 1].Success? then history[|history| - 1].value
    else LastSuccess(history[..|history| - 1])
  }

  /** What the completion closure tells the output for `result`. */
  function CompletionNotifications(result: SearchResult): seq<Notification>
  {
    match result
    case Success(models) => [DisplayUpdate(false), Update(models)]
    case Failure(error) => [GetError(error)]
  }

  /** What one whole search tells the output: loading first, then the completion's calls. */
  function SearchNotifications(result: SearchResult): seq<Notification>
  {
    [DisplayUpdate(true)] + CompletionNotifications(result)
  }

  /** What a run of searches, each finished before the next starts, tells the output. */
  function SessionNotifications(results: seq<SearchResult>): seq<Notification>
  {
    if results == [] then []
    else SessionNotifications(results[..|results| - 1]) + SearchNotifications(results[|results| - 1])
  }

  /** How many of `results` succeeded. */
  function Successes(results: seq<SearchResult>): nat
  {
    if results == [] then 0
    else Successes(results[..|results| - 1]) + (if results[|results| - 1].Success? then 1 else 0)
  }

  /**
   * `LastSuccess` is the value of the latest success: a success followed only by
   * failures decides the list, and with no success at all the list is empty.
   */
  lemma {:induction false} LastSuccessIsLatest(history: seq<SearchResult>, k: nat)
    requires k < |history| && history[k].Success?
    requires forall j :: k < j < |history| ==> history[j].Failure?
    ensures LastSuccess(history) == history[k].value
  {
    if k < |history| - 1 {
      var shorter := history[..|history| - 1];
      assert forall j :: k < j < |shorter| ==> shorter[j] == history[j];
      LastSuccessIsLatest(shorter, k);
    }
  }

  /** With no success in the history the presenter still holds its initial empty list. */
  lemma {:induction false} LastSuccessNone(history: seq<SearchResult>)
    requires forall j :: 0 <= j < |history| ==> history[j].Failure?
    ensures LastSuccess(history) == []
  {
    if history != [] {
      LastSuccessNone(history[..|history| - 1]);
    }
  }

  /** Failures appended to a history leave the held list as it was. */
  lemma {:induction false} FailuresKeepList(history: seq<SearchResult>, failures: seq<SearchResult>)
    requires forall j :: 0 <= j < |failures| ==> failures[j].Failure?
    ensures LastSuccess(history + failures) == LastSuccess(history)
  {
    var all := history + failures;
    if failures == [] {
      assert all == history;
    } else {
      var shorter := failures[..|failures| - 1];
      assert all[..|all| - 1] == history + shorter;
      assert all[|all| - 1] == failures[|failures| - 1];
      FailuresKeepList(history, shorter);
    }
  }

  /**
   * One search: the first call on the output is `displayUpdate(loading: true)`, whatever
   * the result; on success `displayUpdate(loading: false)` and then `update` with the new
   * list follow; on failure only `get(error:)` with that error follows.
   */
  lemma SearchNotificationOrder(result: SearchResult)
    ensures SearchNotifications(result)[0] == DisplayUpdate(true)
    ensures result.Success? ==>
      SearchNotifications(result) == [DisplayUpdate(true), DisplayUpdate(false), Update(result.value)]
    ensures result.Failure? ==>
      SearchNotifications(result) == [DisplayUpdate(true), GetError(result.error)]
    ensures DisplayUpdate(false) in SearchNotifications(result) <==> result.Success?
  {
  }

  /**
   * Over a run of searches `loading: true` is sent once per search, and `loading: false`
   * once per successful search only: a failed search leaves the loading indicator on.
   */
  lemma {:induction false} SessionLoadingCounts(results: seq<SearchResult>)
    ensures multiset(SessionNotifications(results))[DisplayUpdate(true)] == |results|
    ensures multiset(SessionNotifications(results))[DisplayUpdate(false)] == Successes(results)
  {
    if results != [] {
      var shorter := results[..|results| - 1];
      SessionLoadingCounts(shorter);
      var last := results[|results| - 1];
      SearchLoadingCounts(last);
      assert multiset(SessionNotifications(results))
        == multiset(SessionNotifications(shorter)) + multiset(SearchNotifications(last));
    }
  }

  /** One search sends `loading: true` once, and `loading: false` once exactly when it succeeds. */
  lemma SearchLoadingCounts(result: SearchResult)
    ensures multiset(SearchNotifications(result))[DisplayUpdate(true)] == 1
    ensures multiset(SearchNotifications(result))[DisplayUpdate(false)] == if result.Success? then 1 else 0
  {
    assert DisplayUpdate(true) != DisplayUpdate(false);
  }

  /** One more search extends what a run tells the output by that search's calls. */
  lemma SessionStep(results: seq<SearchResult>, result: SearchResult)
    ensures SessionNotifications(results + [result]) == SessionNotifications(results) + SearchNotifications(result)
  {
    assert (results + [result])[..|results|] == results;
  }

  /** The run of the first `i + 1` results extends that of the first `i`. */
  lemma SessionPrefixStep(results: seq<SearchResult>, i: nat)
    requires i < |results|
    ensures results[..i + 1] == results[..i] + [results[i]]
    ensures SessionNotifications(results[..i + 1])
      == SessionNotifications(results[..i]) + SearchNotifications(results[i])
  {
    assert results[..i + 1] == results[..i] + [results[i]];
    SessionStep(results[..i], results[i]);
  }

  /** `SessionLoadingCounts` for the calls sent after `before`. */
  lemma SentAfterCounts(before: seq<Notification>, results: seq<SearchResult>)
    ensures multiset((before + SessionNotifications(results))[|before|..])[DisplayUpdate(true)] == |results|
    ensures multiset((before + SessionNotifications(results))[|before|..])[DisplayUpdate(false)]
      == Successes(results)
  {
    assert (before + SessionNotifications(results))[|before|..] == SessionNotifications(results);
    SessionLoadingCounts(results);
  }

  /** Concatenation regroups freely. */
  lemma Regrouped<T>(a: seq<T>, b: seq<T>, c: seq<T>)
    ensures a + b + c == a + (b + c)
  {
  }

  /** The presenter behind the search screen. */
  class SearchPresenter {
    /** The photos of the last successful search. */
    var photoModels: seq<PhotoModel>
    /** Whether the weakly held output still exists. */
    var outputAttached: bool
    /** Every result the completion closure has received, oldest first. */
    ghost var completions: seq<SearchResult>
    /** Every call made on the output, oldest first. */
    ghost var notifications: seq<Notification>

    /** The held list is always that of the latest successful completion. */
    ghost predicate Valid()
      reads this
    {
      photoModels == LastSuccess(completions)
    }

    /** `init(output:)`: an empty list, an attached output, nothing sent yet. */
    constructor ()
      ensures Valid()
      ensures photoModels == [] && outputAttached
      ensures completions == [] && notifications == []
    {
      photoModels := [];
      outputAttached := true;
      completions := [];
      notifications := [];
    }

    /** The output has been deallocated, so the weak reference now reads `nil`. */
    method ReleaseOutput()
      modifies this
      ensures !outputAttached
      ensures Valid() <==> old(Valid())
      ensures photoModels == old(photoModels) && completions == old(completions)
      ensures notifications == old(notifications)
    {
      outputAttached := false;
    }

    /** `numberOfItems`: the size of the latest successful result, zero before any. */
    function NumberOfItems(): (n: int)
      reads this
      requires Valid()
      ensures n == |LastSuccess(completions)|
      ensures completions == [] ==> n == 0
    {
      |photoModels|
    }

    /** `item(index:)`: the photo at `index` of the latest successful result, in server order. */
    function Item(index: int): (m: PhotoModel)
      reads this
      requires Valid()
      requires 0 <= index < NumberOfItems()
      ensures m == LastSuccess(completions)[index]
    {
      photoModels[index]
    }

    /** The part of `search` before the request: `displayUpdate(loading: true)`. */
    method Start()
      requires Valid()
      modifies this
      ensures Valid()
      ensures photoModels == old(photoModels) && completions == old(completions)
      ensures outputAttached == old(outputAttached)
      ensures notifications == old(notifications) + (if outputAttached then [DisplayUpdate(true)] else [])
    {
      if outputAttached {
        notifications := notifications + [DisplayUpdate(true)];
      }
    }

    /**
     * The completion closure of `search`: a success replaces the list wholesale, then
     * sends `loading: false` and `update`; a failure keeps the list and sends only the error.
     */
    method Complete(result: SearchResult)
      requires Valid()
      modifies this
      ensures Valid()
      ensures completions == old(completions) + [result]
      ensures photoModels == if result.Success? then result.value else old(photoModels)
      ensures outputAttached == old(outputAttached)
      ensures notifications == old(notifications)
        + (if outputAttached then CompletionNotifications(result) else [])
    {
      completions := completions + [result];
      match result {
        case Success(models) =>
          photoModels := models;
          if outputAttached {
            notifications := notifications + [DisplayUpdate(false)];
          }
          if outputAttached {
            notifications := notifications + [Update(photoModels)];
          }
        case Failure(error) =>
          if outputAttached {
            notifications := notifications + [GetError(error)];
          }
      }
    }

    /**
     * A whole `search` whose completion closure receives `result`: the part before
     * the request, then the closure.
     */
    method Run(result: SearchResult)
      requires Valid()
      modifies this
      ensures Valid()
      ensures completions == old(completions) + [result]
      ensures photoModels == if result.Success? then result.value else old(photoModels)
      ensures outputAttached == old(outputAttached)
      ensures notifications == old(notifications)
        + (if outputAttached then SearchNotifications(result) else [])
    {
      Start();
      Complete(result);
    }

    /** `search(parameters:)` for a request whose URL check and transport outcome are given. */
    method Search(parameters: PhotoSearchParameters, urlIsValid: string -> bool,
                  transport: Option<PhotoAPIResponse>)
      requires Valid()
      modifies this
      ensures Valid()
      ensures completions == old(completions) + [Get(parameters, urlIsValid, transport)]
      ensures photoModels == if Get(parameters, urlIsValid, transport).Success?
        then Get(parameters, urlIsValid, transport).value else old(photoModels)
      ensures outputAttached == old(outputAttached)
      ensures notifications == old(notifications)
        + (if outputAttached then SearchNotifications(Get(parameters, urlIsValid, transport)) else [])
    {
      Run(Get(parameters, urlIsValid, transport));
    }
  }

  /**
   * A search for "cats" whose response holds one photo with identifier "1": afterwards
   * the presenter holds one item, that photo, and the query carried the term.
   */
  method SearchCats(urlIsValid: string -> bool) returns (count: int, firstId: string)
    requires urlIsValid(RequestURL(PhotoSearchParameters(Some("cats"))))
    ensures count == 1 && firstId == "1"
  {
    var presenter := new SearchPresenter();
    var photo := PhotoModel("1", URLS("http://x/1.jpg"));
    presenter.Search(PhotoSearchParameters(Some("cats")), urlIsValid,
                     Some(PhotoAPIResponse(Some([photo]))));
    assert presenter.photoModels == [photo];
    count := presenter.NumberOfItems();
    firstId := presenter.Item(0).id;
  }

  /**
   * Searching twice for the same term with the same outcome, the first finishing before
   * the second starts, ends with the same list as searching once.
   */
  method SearchTwice(presenter: SearchPresenter, parameters: PhotoSearchParameters,
                     urlIsValid: string -> bool, transport: Option<PhotoAPIResponse>)
    requires presenter.Valid()
    modifies presenter
    ensures presenter.Valid()
    ensures presenter.photoModels
      == if Get(parameters, urlIsValid, transport).Success?
         then Get(parameters, urlIsValid, transport).value else old(presenter.photoModels)
    ensures presenter.outputAttached ==>
      (presenter.notifications == old(presenter.notifications)
        + SessionNotifications([Get(parameters, urlIsValid, transport), Get(parameters, urlIsValid, transport)]))
  {
    var r := Get(parameters, urlIsValid, transport);
    assert SessionNotifications([r, r]) == SearchNotifications(r) + SearchNotifications(r) by {
      assert [r, r][..1] == [r];
      assert SessionNotifications([r]) == SessionNotifications([]) + SearchNotifications(r);
    }
    Regrouped(old(presenter.notifications), SearchNotifications(r), SearchNotifications(r));
    presenter.Search(parameters, urlIsValid, transport);
    presenter.Search(parameters, urlIsValid, transport);
  }

  /**
   * A series of searches, each finished before the next starts, whose completions
   * receive `results` in order (`search` is `Start` followed by `Complete`). The
   * presenter ends with the list of the latest success in the series, or its earlier
   * list when none succeeds, and its output receives `loading: true` once per search
   * and `loading: false` once per successful search.
   */
  method SearchSeries(presenter: SearchPresenter, results: seq<SearchResult>)
    requires presenter.Valid()
    modifies presenter
    ensures presenter.Valid()
    ensures presenter.completions == old(presenter.completions) + results
    ensures presenter.photoModels == LastSuccess(old(presenter.completions) + results)
    ensures presenter.outputAttached == old(presenter.outputAttached)
    ensures presenter.outputAttached ==>
      (presenter.notifications == old(presenter.notifications) + SessionNotifications(results))
    ensures !presenter.outputAttached ==> presenter.notifications == old(presenter.notifications)
    ensures presenter.outputAttached ==>
      (multiset(presenter.notifications[|old(presenter.notifications)|..])[DisplayUpdate(true)] == |results|)
    ensures presenter.outputAttached ==>
      (multiset(presenter.notifications[|old(presenter.notifications)|..])[DisplayUpdate(false)]
        == Successes(results))
  {
    var i := 0;
    while i < |results|
      invariant 0 <= i <= |results|
      invariant presenter.Valid()
      invariant presenter.outputAttached == old(presenter.outputAttached)
      invariant presenter.completions == old(presenter.completions) + results[..i]
      invariant presenter.outputAttached ==>
        (presenter.notifications == old(presenter.notifications) + SessionNotifications(results[..i]))
      invariant !presenter.outputAttached ==> presenter.notifications == old(presenter.notifications)
    {
      SessionPrefixStep(results, i);
      Regrouped(old(presenter.completions), results[..i], [results[i]]);
      Regrouped(old(presenter.notifications), SessionNotifications(results[..i]), SearchNotifications(results[i]));
      presenter.Run(results[i]);
      i := i + 1;
    }
    assert results[..i] == results;
    SentAfterCounts(old(presenter.notifications), results);
  }
}
