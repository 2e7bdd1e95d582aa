# PhotoSearch search pipeline in Dafny

A model of the search request/response pipeline of the MVP-PhotoSearch iOS app, with
proofs about it. The pipeline has two parts.

- **`PhotoAPI`**: the three-case error type `APIResponseError` and its messages, and the
  search parameters. The parameters cover the nil-defaulted term, the fixed page and page
  size, `validation` and `queryParameter`. Then comes `PhotoAPI.get`, with its guards
  checked in order: validation, URL construction, and the data task's completion handler.
  `get` is a pure function here. `URL(string:)` becomes the parameter
  `urlIsValid: string -> bool`. The network and JSON decoding become the parameter
  `transport: Option<PhotoAPIResponse>`, where `None` means no data or undecodable data.
- **`Presenter`**: the `SearchPresenter` class. It holds `photoModels`, answers
  `numberOfItems` and `item(index:)`, and sends calls to its output. `search` is split in
  two. `Start` is what runs before the request. `Complete(result)` is the completion
  closure. `Search` runs both in sequence. A ghost history of completions and a ghost log
  of output calls make the observable behaviour explicit.

Supporting modules:
- `Model` holds the decoded response shapes.
- `Wrappers` holds `Option` and `Result`.
- `Decimal` models Swift's `"\(n)"` for `Int` and gives a parser that reads it back.
- `QueryParsing` is a reference reader of a query string. It splits fields at `&`,
  splits a name from its value at the first `=`, takes the first field with a given
  name, and does no percent-decoding. It is used to state what `queryParameter` means.
  A second reader takes the last field with a given name instead, as many servers do.

Points of the code's behaviour worth noting:
- The term is neither trimmed nor percent-encoded. A whitespace-only term passes
  validation, and a term containing `&` adds fields to the query
  (`QueryParameterFields`, `QueryParameterInjection`). Such a term can also repeat the
  page size field: a last-field reader then sees a page size above the bound of 50 that
  validation checks (`QueryParameterPageSizeOverride`).
- `displayUpdate(loading: true)` is sent before validation runs. It is sent even for a
  search that then fails validation.
- A failed search sends only `get(error:)`. No `loading: false` follows it.
- `item(index:)` indexes the array directly, and Swift traps when the index is out of
  range. The model states this as a precondition.

## Model

| member | source | states |
|---|---|---|
| `PhotoAPI.APIResponseError.ErrorDescription` | MVP-PhotoSearch/API/PhotoAPI.swift:14-23 | every error case has a non-nil, non-empty message |
| `PhotoAPI.ErrorDescriptionsDistinct` | MVP-PhotoSearch/API/PhotoAPI.swift:12-23 | two cases have the same message exactly when they are the same case |
| `PhotoAPI.PhotoSearchParameters.SearchTerm` | MVP-PhotoSearch/API/PhotoAPI.swift:31-33 | a nil search word is sent as the empty string; otherwise the word is sent unchanged (no trimming) |
| `PhotoAPI.PhotoSearchParameters.Validation` | MVP-PhotoSearch/API/PhotoAPI.swift:34-39 | with the fixed page size of 30 the size bound always holds, so validation holds exactly when the sent term is non-empty |
| `PhotoAPI.ValidationCases` | MVP-PhotoSearch/API/PhotoAPI.swift:33-39 | a nil term and an empty term fail validation; a single space passes; every parameter value has page 0 and a page size in (0, 50] |
| `PhotoAPI.PhotoSearchParameters.QueryParameter` | MVP-PhotoSearch/API/PhotoAPI.swift:41-43 | the query string is the fixed prefix `page=0&per_page=30&query=`, then the term verbatim, then `&client_id=` and the credential, and nothing else |
| `PhotoAPI.RequestURL` | MVP-PhotoSearch/API/PhotoAPI.swift:51-61 | the request address is `https://api.unsplash.com/search/photos?` followed by exactly the query string |
| `PhotoAPI.QueryParameterLayout` | MVP-PhotoSearch/API/PhotoAPI.swift:41-43 | the query string is `page=0&per_page=30&query=` + term + `&client_id=` + credential, with the term inserted verbatim |
| `PhotoAPI.QueryParameterCats` | MVP-PhotoSearch/API/PhotoAPI.swift:41-43 | for the term "cats", the query text holds `per_page=30&query=cats` at offsets 7 to 29, right after the page field, and reading it back gives page size "30" and term "cats" |
| `PhotoAPI.QueryParameterFields` | MVP-PhotoSearch/API/PhotoAPI.swift:41-43 | under a reader where the first field of a name wins, reading the query string back gives page "0" and page size "30" for every term; it gives the term back if and only if the term has no `&`; it gives the credential back when the term has no `&` |
| `PhotoAPI.QueryParameterInjection` | MVP-PhotoSearch/API/PhotoAPI.swift:37-43 | the term "cats&client_id=other" passes validation, and the query string it produces carries the credential "other" |
| `PhotoAPI.QueryParameterPageSizeOverride` | MVP-PhotoSearch/API/PhotoAPI.swift:37-43 | the term "cats&per_page=100" passes validation; a first-field reader sees page size "30", while a last-field reader sees "100", above the bound of 50 |
| `Decimal.NatToDecimal` | MVP-PhotoSearch/API/PhotoAPI.swift:42 | a natural number is written as at least one digit, with no leading zero, and the digits read back as the number |
| `Decimal.IntToDecimal` | MVP-PhotoSearch/API/PhotoAPI.swift:42 | interpolating an `Int` gives digits with a leading `-` only for negatives, and the text parses back to the same number |
| `Decimal.SmallNumbersRendered` | MVP-PhotoSearch/API/PhotoAPI.swift:34-35 | the fixed page 0 and page size 30 are written as "0" and "30" |
| `PhotoAPI.RequestedURL` | MVP-PhotoSearch/API/PhotoAPI.swift:51-66 | a data task is started exactly when validation passes and base URL + endpoint + query string parses as a URL, and it is started with that address |
| `PhotoAPI.Receive` | MVP-PhotoSearch/API/PhotoAPI.swift:66-75 | the completion handler succeeds exactly when data decoded and `results` is present, and then returns exactly `results`; in every other case it fails with `taskError` |
| `PhotoAPI.Get` | MVP-PhotoSearch/API/PhotoAPI.swift:54-78 | `validationError` exactly when validation fails; `urlError` exactly when validation passes and the URL does not parse; `taskError` exactly when a request was made and the data, the decoding or `results` is missing; otherwise success with the decoded `results` and a non-empty term |
| `PhotoAPI.NoRequestNoTransport` | MVP-PhotoSearch/API/PhotoAPI.swift:56-64 | when a guard stops `get` before the request, the transport outcome does not affect the result, and the result is a failure other than `taskError` |
| `PhotoAPI.RequestDecidesByTransport` | MVP-PhotoSearch/API/PhotoAPI.swift:61-75 | once the request is made, the result is the completion handler's verdict on the transport outcome |
| `PhotoAPI.DecodedResultsKept` | MVP-PhotoSearch/API/PhotoAPI.swift:67-74 | for a valid request, an envelope with N results gives a success with those N photos in the same order |
| `Presenter.LastSuccessIsLatest` | MVP-PhotoSearch/Presenter/SearchPresenter.swift:52-58 | the list held after a series of completions is the list from the latest success, whatever failures came after it |
| `Presenter.LastSuccessNone` | MVP-PhotoSearch/Presenter/SearchPresenter.swift:30 | if no completion succeeded, the held list is still the initial empty one |
| `Presenter.FailuresKeepList` | MVP-PhotoSearch/Presenter/SearchPresenter.swift:57-58 | appending failures to the completion history leaves the held list unchanged |
| `Presenter.SearchNotificationOrder` | MVP-PhotoSearch/Presenter/SearchPresenter.swift:48-58 | a search first sends `loading: true`; on success it then sends `loading: false` and `update` with the new list, in that order; on failure it then sends only `get(error:)`; `loading: false` is sent exactly when the search succeeds |
| `Presenter.SessionLoadingCounts` | MVP-PhotoSearch/Presenter/SearchPresenter.swift:46-61 | over a run of searches, `loading: true` is sent once per search and `loading: false` once per successful search |
| `Presenter.SearchPresenter.constructor` | MVP-PhotoSearch/Presenter/SearchPresenter.swift:28-34 | a new presenter holds an empty list, has its output attached, and has sent nothing |
| `Presenter.SearchPresenter.ReleaseOutput` | MVP-PhotoSearch/Presenter/SearchPresenter.swift:28 | the weakly held output goes away; nothing else changes, so the presenter's invariant is kept |
| `Presenter.SearchPresenter.NumberOfItems` | MVP-PhotoSearch/Presenter/SearchPresenter.swift:41 | the count is the size of the latest successful result, and zero before any completion |
| `Presenter.SearchPresenter.Item` | MVP-PhotoSearch/Presenter/SearchPresenter.swift:44 | for an index below the count, the item is the photo at that index of the latest successful result |
| `Presenter.SearchPresenter.Start` | MVP-PhotoSearch/Presenter/SearchPresenter.swift:48 | sends `displayUpdate(loading: true)` if the output is attached; the list and the history do not change |
| `Presenter.SearchPresenter.Complete` | MVP-PhotoSearch/Presenter/SearchPresenter.swift:50-60 | records the result; a success replaces the list wholesale and sends `loading: false` then `update`; a failure keeps the list and sends only the error; nothing is sent when the output is gone |
| `Presenter.SearchPresenter.Run` | MVP-PhotoSearch/Presenter/SearchPresenter.swift:46-61 | a whole search whose completion receives a given result records it, keeps the list held in step with the latest success, and with an output attached sends exactly that search's calls in order |
| `Presenter.SearchPresenter.Search` | MVP-PhotoSearch/Presenter/SearchPresenter.swift:46-61 | a whole search records `get`'s result, holds `get`'s photos after a success and the earlier list after a failure, and with an output attached sends exactly that search's calls in order |
| `Presenter.SearchCats` | MVP-PhotoSearch/Presenter/SearchPresenter.swift:41-56 | searching for "cats" with a one-photo response leaves a count of 1 and item 0 with identifier "1" |
| `Presenter.SearchTwice` | MVP-PhotoSearch/Presenter/SearchPresenter.swift:46-61 | two identical searches in sequence leave the list that one search leaves, and send the calls of two searches |
| `Presenter.SearchSeries` | MVP-PhotoSearch/Presenter/SearchPresenter.swift:46-61 | searches in sequence record every result in order and leave the list of the latest success; with an output attached they send exactly the run's calls, so `loading: true` once per search and `loading: false` once per successful search |

## Left out

- The network request itself (`URLSession.shared.dataTask` and `task.resume()`) is not modelled. It is I/O; its outcome is the `transport` parameter.
- `JSONDecoder` is not modelled. It is a library call; only whether decoding succeeded and whether `results` is present are modelled.
- `URL(string:)` is not modelled. It is a Foundation parser; it is the uninterpreted `urlIsValid` predicate on the address string.
- `get`'s optional `completion` is always present in the model. The presenter always passes one. With a nil completion the source drops the result.
- Exactly-once delivery of the completion is by construction: `Get` returns exactly one result on every path.
- Asynchrony is not modelled: overlapping searches, callbacks arriving out of order, and the threads the callbacks run on. `Start` and `Complete` are separate calls, but nothing pairs them.
- The `[weak self]` capture is not modelled. A presenter deallocated before its completion arrives is beyond a sequential model.
- The `PhotoAPI.shared` singleton is not modelled. It holds no state, so `Get` is a module-level function.
- Swift's 64-bit `Int` is not modelled. The only integers rendered are the constants 0 and 30, so overflow cannot arise.
- The wording of the Japanese error messages is included verbatim, but only its distinctness and non-emptiness are stated.
- The view controller, collection view cell, router and app delegate are UI wiring and are not modelled. That includes the hard-coded item count of 10 and the floating-point cell sizing.
