# Flight query result shaping

This project models the part of the SkyScanner dashboard that shapes a fare
provider's query response:

- **Records.** `FlightItinerary` and its nested leg, pricing-option, agent and
  carrier records are each built field by field from their part of the parsed
  response.
- **Lowest price of an itinerary.** This is the minimum over its pricing
  options.
- **`FlightQuery.FlightQueryResult`.** Its constructor copies the ten `Query`
  summary values and fills id tables for legs, agents and carriers, plus the
  ordered itinerary list. `get_itinerary_leg` looks a leg up by id.
  `get_lowest_price(number)` selects the `number` cheapest itineraries. It
  keeps a working list, and whenever the list grows past `number` it sorts the
  list stably by lowest price and deletes the last entry.

The model has four modules:

- **`Messages`** models the parsed response as a JSON value. It also models
  the three Python operations the code applies to that value, with the
  exceptions they raise:
  - `msg['key']` (`KeyError`, or `TypeError` on a value that is not a dict);
  - `for x in v`;
  - use of a value as a dict key (`TypeError` when the value is unhashable).

  It also defines `MapAll`, the list comprehension that builds one record per
  element.
- **`FlightItinerary`** holds the record datatypes, their builders, and
  `LowestPrice`.
- **`Sorting`** is a stable insertion sort. It is specified by a recursive
  function and implemented in place on an array, and it stands in for
  `list.sort(key=...)`.
- **`FlightQuery`** holds:
  - the summary;
  - `Index`, the dict-filling loop, where a later record overwrites an
    earlier one with the same id;
  - the whole construction, as `ParseQueryResult`;
  - the selection specification `Select`, a fold of one loop turn `Step`
    over the itineraries;
  - the class `QueryResult`, whose `Load`, `GetItineraryLeg` and
    `GetLowestPrice` are the source's constructor and methods.

Every raising path of the source is an `Error` value in a `Result`. The model
keeps the source's reading order, so the error reported is the one Python
would raise first.

Where the code and the design description of the system differ, the model
follows the code:

- `InboundLegId` is read from `OutboundLegId` (query.py:111). Both leg ids of
  every itinerary are therefore the outbound id, and the message's
  `InboundLegId` is never read. `FlightItinerary.ItineraryFromMessage` and
  `FlightItinerary.InboundLegIdIgnored` state this.
- `get_lowest_price(number)` sorts only on overflow. With at most `number`
  itineraries it returns them in their original, unsorted order
  (`FlightQuery.SelectFew`, `FlightQuery.SelectExample`). The description
  promises a sorted result in that case.
- An itinerary with no pricing option is not skipped. When the working list
  overflows while holding one, the key computation raises `ValueError` from
  `min`, and the whole call fails (`FlightQuery.SelectFails`). CPython
  computes the key of every element before sorting, so this happens even
  though only the list's last element was just added.
- A missing `Query` section, or a missing summary key, raises the
  corresponding `KeyError`. A non-dict `Query` raises `TypeError`. There is no
  dedicated error kind for these.
- The code has no `Places` table and no carrier filter. It also does not
  flatten itineraries into name-resolved display records. None of these is
  modelled.

## Model

| member | source | states |
|---|---|---|
| Messages.Get | query.py:60 | `msg[key]` succeeds exactly when `msg` is a dict holding `key`, and yields its value. Otherwise it raises `KeyError(key)` on a dict and `TypeError` on anything else. |
| Messages.Elements | query.py:143 | Iterating a response section: a list yields its items. An empty dict or an empty string yields nothing. A non-empty dict or string yields strings, and subscripting them raises `TypeError`. Any other value raises the not-iterable `TypeError`. |
| Messages.ToFloat | query.py:76 | `float` succeeds on numbers and booleans, with `True` giving 1.0 and `False` giving 0.0. Any other value fails. |
| Messages.MapAllSuccess | query.py:112 | The list comprehension succeeds exactly when every element builds. It then yields one record per element, in the same order. |
| Messages.MapAllFirstError | query.py:112 | When the comprehension fails, its error is the one raised by the first element that fails to build. |
| Messages.GetAllSpec | query.py:131-141 | Reading a sequence of keys succeeds exactly when the value is a dict holding all of them, and yields their values in order. Otherwise it raises `TypeError` for a non-dict, or `KeyError` for the first absent key. |
| FlightItinerary.ParseLeg | query.py:56-66 | A leg is built exactly when the message holds all seven leg keys, and each field is that key's value. |
| FlightItinerary.ParsePricingOption | query.py:72-78 | A pricing option is built exactly when `Price`, `Agents` and `QuoteAgeInMinutes` are present and `Price` converts to a number. The price is that number. A price that does not convert raises the conversion error. |
| FlightItinerary.ParseAgent | query.py:84-91 | An agent is built exactly when the message holds `Id`, `Name`, `OptimisedForMobile` and `Type`, and each field is that key's value. |
| FlightItinerary.ParseCarrier | query.py:97-104 | A carrier is built exactly when the message holds `Id`, `DisplayCode`, `Code` and `Name`, and each field is that key's value. |
| FlightItinerary.ItineraryFromMessage | query.py:106-112 | An itinerary is built exactly when `OutboundLegId` is present and `PricingOptions` is iterable with every element a valid pricing option. It then holds one pricing option per element, in order, and its `InboundLegId` equals its `OutboundLegId`. |
| FlightItinerary.InboundLegIdIgnored | query.py:110-111 | For every dict message, replacing or adding its `InboundLegId` does not change the itinerary built or the error raised. |
| FlightItinerary.InboundLegIdExample | query.py:110-111 | A message whose `InboundLegId` differs from its `OutboundLegId` still yields an itinerary with both leg ids equal to the outbound one. |
| FlightItinerary.MinPrice | query.py:115 | The minimum of a non-empty list of pricing options is the price of one of them and is no greater than any of them. |
| FlightItinerary.LowestPrice | query.py:114-115 | `get_lowest_price` succeeds exactly when the itinerary has a pricing option, and otherwise raises the empty-`min` error. The value equals some option's price and is at most every option's price. |
| FlightQuery.SummaryNeedsEveryKey | query.py:131-141 | Reading the summary succeeds exactly when `Query` is a dict holding all ten keys, and copies their values. Otherwise it raises `KeyError('Query')`, or `TypeError` for a non-dict `Query`, or `KeyError` for the first absent key in reading order. |
| FlightQuery.QueryResultNeedsSummary | query.py:122-141 | When the summary is incomplete, construction fails with the summary's error, whatever else the response holds. |
| FlightQuery.IndexContents | query.py:143-150 | A table is built exactly when every element builds and has a hashable id. Its keys are exactly the ids of the records, and under each id sits the last record listed with it. |
| FlightQuery.IndexKeys | query.py:143-150 | Every record in a built table sits under its own id, and that id is hashable. |
| FlightQuery.IndexStops | query.py:143-150 | Once filling a table raises at some element, the whole fill reports that error. |
| FlightQuery.MapAllStops | query.py:152-153 | Once building an itinerary raises, the whole list reports that error. |
| FlightQuery.BuildIndex | query.py:143-150 | The loop that fills one table computes exactly the specified table, or raises the specified error. |
| FlightQuery.QueryResultContents | query.py:122-153 | After construction, each table's keys are the ids of its input collection, with the last duplicate winning. Leg ids are hashable. `Itineraries` has one entry per input itinerary, in input order, each built from that element. |
| FlightQuery.QueryResult.constructor | query.py:126-129 | A new result starts with empty tables and an empty itinerary list. |
| FlightQuery.QueryResult.Load | query.py:122-153 | The imperative constructor succeeds exactly when the specified construction does. It then leaves a fresh object whose state is that construction's result and whose tables hold each record under its own id. Otherwise it raises the same error. |
| FlightQuery.QueryResult.GetItineraryLeg | query.py:155-159 | The lookup yields `Legs[legId]` exactly when `legId` is hashable and a key. Otherwise it raises `KeyError(legId)`, or `TypeError` for an unhashable id. On a loaded result the leg returned has that id. It reads the object and changes nothing. |
| FlightQuery.LegLookupAfterLoad | query.py:143-144 | After loading, a leg lookup succeeds exactly for the ids of the response's legs, and yields the last leg listed under the id. |
| FlightQuery.QueryResult.GetLowestPrice | query.py:161-173 | The loop's result is the specified selection over `Itineraries`, with a negative `number` acting as 0. On success it holds at most `number` itineraries, all taken from `Itineraries`. |
| FlightQuery.SelectFew | query.py:166-173 | With no more itineraries than `number`, the result is the input list, unsorted. |
| FlightQuery.SelectMany | query.py:166-173 | With more itineraries than `number`, all priced, the result is the first `number` of the whole list sorted stably by lowest price. |
| FlightQuery.SelectFails | query.py:166-173 | The selection raises exactly when the list exceeds `number` and some itinerary has no pricing option. The error is the empty-`min` error. |
| FlightQuery.SelectSize | query.py:166-173 | A successful selection returns exactly `min(number, len(Itineraries))` itineraries, as a sub-multiset of the input. |
| FlightQuery.SelectCheapest | query.py:166-173 | On overflow, every itinerary has a price. The result is ascending by lowest price, and no dropped itinerary is strictly cheaper than a kept one. |
| FlightQuery.CheapestFirst | query.py:170-171 | Cutting a price-sorted permutation after `n` keeps an ascending prefix that no dropped itinerary undercuts. |
| FlightQuery.SelectStable | query.py:166-173 | Among itineraries of equal lowest price, those kept are the first ones met, in the order met. |
| FlightQuery.OverflowRaises | query.py:169-170 | An overflowing working list that holds an unpriced itinerary makes the whole call raise. |
| FlightQuery.SelectNone | query.py:166-173 | With `number` 0 the result is empty, unless some itinerary has no pricing option, in which case the call raises. |
| FlightQuery.SelectExample | query.py:166-173 | Itineraries priced 100, 50 and 75 with room for two give the 50 and 75 itineraries in that order. With room for three, all three come back in input order. |
| Sorting.InsertCount | query.py:170 | Inserting adds exactly the one item to the multiset. |
| Sorting.InsertSorted | query.py:170 | Inserting into a sorted list keeps it sorted. |
| Sorting.InsertWithKey | query.py:170 | Inserting puts the new item after every item with an equal key. |
| Sorting.SortIsStableSort | query.py:170 | The sort returns a permutation of its input, ascending by key, and items with equal keys keep their input order. |
| Sorting.StableSortUnique | query.py:170 | Two sorted lists with the same items per key, in the same order, are equal. Any stable sort, CPython's included, therefore gives the result `Sort` gives. |
| Sorting.SortSorted | query.py:170 | Sorting a sorted list changes nothing. |
| Sorting.InsertPrefix | query.py:170-171 | The first `n` items after inserting into a sorted list depend only on the list's first `n` items. |
| Sorting.SortTruncated | query.py:168-171 | Sorting the kept prefix plus a new item and cutting it gives the same prefix as sorting everything seen. So deleting the last entry never discards an item a later step would need. |
| Sorting.SortedSplit | query.py:170-171 | In a sorted list, every item before a cut has a key no greater than any item after it. |
| Sorting.SortList | query.py:170 | Sorting a list through an array gives exactly `Sort` of the list. |
| Sorting.InsertionSort | query.py:170 | The in-place sort leaves the array holding `Sort` of its old contents. |
| Sorting.InsertLast | query.py:170 | One pass of adjacent swaps places the item at `i` among the sorted prefix before it, as `Insert` does, and leaves the rest of the array unchanged. |

## Left out

- The `config` class (query.py:6-46) is left out because it is a getter wrapper around a configuration file.
- `FlightQuery.__init__`, `top_autosuggest` and `Query` (query.py:175-225) are left out because they call the external fare-provider SDK over the network.
- The `__main__` block of query.py, export_db.py and run.py are left out because they are console printing, database export and the web handler around the network calls.
- Messages.ToFloat: a numeric string is treated as not a number, because the model does not parse text to numbers, although Python's `float` accepts such strings.
- FlightItinerary.ParsePricingOption: a `Price` given as a numeric string is treated as not a number, for the same reason.
- Prices are exact reals, not floating-point numbers, so NaN and rounding are not modelled. Python's `float` also raises `OverflowError` on an integer too large for a float, where the model succeeds.
- Dict keys are compared as JSON values, not with Python's equality. Numbers are reals, so `1` and `1.0` are one key in the model as in Python. But Python also treats `True` as `1` and `False` as `0`, while the model keeps booleans and numbers apart.
- The order in which a dict's entries are iterated is not modelled, because the tables are maps.
- Iterating a non-empty dict or string is modelled only as far as the next subscript, which raises `TypeError`. The model does not track the elements such an iteration yields.
- FlightQuery.QueryResult.GetLowestPrice keeps its working list as a sequence. Each sort copies the list into an array, sorts the array in place, and copies it back. The list object itself is not updated in place, and aliasing of it is not modelled.
- Python's `list.sort` is Timsort. The model sorts by insertion instead. `Sorting.StableSortUnique` shows that any stable sort gives the same result.
- A `number` that is not an integer is not modelled, because the parameter is an `int`. A negative `number` behaves as 0, as it does in the source.
