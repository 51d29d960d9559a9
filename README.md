# Business directory REST resource: a Dafny model

This project models the in-memory business directory served by the Flask application in `test.py`. The directory is one process-wide list of business records, and each record owns a list of reviews. Ten route handlers list, fetch, create, edit and delete businesses, and do the same for the reviews nested under a business. They change the list in place with `append`, `remove` and dictionary field assignment. Every lookup is a `for` loop that `break`s at the first record with the requested id.

The model has five modules:

- `Lists` (lists.dfy) covers the Python idioms the handlers share:
  - The scan loop (`ScanFor`, specified by `LoopStop`). A Python loop variable stays bound after the loop ends. So when nothing matches, the scan ends at the LAST element, not at an error. The variable is unbound only when the list is empty.
  - `list.remove`, which removes by value (`RemoveValue`).
  - Facts about lists of strictly increasing ids.
- `Records` (records.dfy) holds the business and review records, the four seeded businesses and the well-formedness invariant. `rating` and `stars` are a small value type. The seeded businesses hold integers, and every value a handler stores comes from a form field, so it is text.
- `Handlers` (handlers.dfy) has one pure function per handler. Each gives the directory after the request and the handler's answer. The answer is either the record the handler serialises or the Python exception it raises. Each becomes an HTTP 500 in the framework:
  - `UnboundLocal` is a loop variable or result variable read although nothing assigned it.
  - `IndexError` is `businesses[-1]` on an empty list.
- `Properties` (properties.dfy) holds lemmas that relate several calls:
  - Every handler preserves well-formedness.
  - Deletes are idempotent.
  - A review that was added can be fetched back until it is deleted.
  - Ids can be reused.
  - Worked examples on the seed data.
- `BusinessApi` (directory.dfy) has the class `Directory`. Its field `businesses` is the global list, and it has one method per handler. Each lookup method runs the scan loop, and the mutating ones then update the list in place. Each method's postcondition equates the new list and the answer with the function in `Handlers`. The methods that change the list also keep the well-formedness invariant.

Behaviour taken from the code as written:

- A new business id is the last business's id + 1 (test.py:58), not the largest id + 1.
- A new review id is 1 when the business has no reviews. Otherwise it is the last review's id + 1 (test.py:111-114).
- Under the invariant that ids increase along the list, the last id is also the largest. The seed data has that invariant and every handler keeps it. Still, deleting the last business and adding another can hand out the same id again (`Properties.DeleteLastThenAddReusesIds`, `Properties.SeedReusesDeletedId`).
- Get, edit and list-reviews on an unknown business id all answer with the LAST business, or its reviews, and change nothing. They fail only on an empty directory. The model follows the code.
- Fetching or editing an unknown review id in a known business answers with that business's last review. It fails only when the business is missing or has no reviews.
- `add_new_review` fails (its result variable is unbound) when the business is missing, and then adds nothing.

## Model

| member | source | states |
|---|---|---|
| Lists.FirstIndex | test.py:48-50 | the first position holding the id, or the list length exactly when no element holds it; no earlier position holds it |
| Lists.LoopStop | test.py:48-51 | where a scan-with-break leaves its loop variable: at the first match; at the last element when nothing matches; unbound exactly when the list is empty |
| Lists.ScanFor | test.py:48-50 | the scanning `for`/`break` loop, run step by step, stops where `LoopStop` says |
| Lists.RemoveValue | test.py:90 | `list.remove` drops exactly one occurrence of the value: the length falls by one and the multiset loses one copy |
| Lists.RemoveValueAt | test.py:88-91 | when no earlier element equals the one found by the scan, removing it by value removes exactly its position |
| Lists.LastIsMaximum | test.py:58 | in an increasing id list the last id is the largest, so last id + 1 is not in the list |
| Lists.IncreasingAppend | test.py:58-67 | appending an id above the last keeps ids strictly increasing |
| Lists.IncreasingRemoveAt | test.py:90 | removing one position keeps ids strictly increasing |
| Lists.IncreasingUnique | test.py:88-91 | in an increasing id list an id occurs once, so the first match is the only one |
| Handlers.FindBusiness | test.py:48-50 | position of the first business with the id, or the list length when none has it |
| Handlers.FindReview | test.py:133-135 | position of the first review with the id, or the list length when none has it |
| Handlers.ShowOneBusiness | test.py:47-51 | the first business with the id; the last business when none has it; unbound exactly when the directory is empty |
| Handlers.AddBusiness | test.py:57-68 | on a non-empty directory: appends one record at the end with id = last id + 1, the given fields (rating as text) and no reviews; earlier records unchanged; empty directory: IndexError and no change |
| Handlers.EditBusiness | test.py:74-81 | overwrites only name, town and rating of the first match; all ids and reviews and every other business unchanged; on a miss no change and the same answer as ShowOneBusiness |
| Handlers.DeleteBusiness | test.py:87-92 | removes exactly the first match (length minus one, order of the rest kept); a miss changes nothing |
| Handlers.FetchAllReviews | test.py:98-102 | the reviews of the first match; those of the last business on a miss; unbound exactly when the directory is empty |
| Handlers.AddNewReview | test.py:108-124 | appends one review to the first match with id 1 if it had none, else its last review id + 1; every other business unchanged; a missing business gives unbound and no change |
| Handlers.FetchOneReview | test.py:130-137 | searches only the reviews of the first matching business: the first matching review, else its last review; unbound when the business is missing or has no reviews |
| Handlers.EditReview | test.py:143-153 | overwrites only username, comment and stars of the first matching review of the first matching business; all ids, the order and every other business unchanged; otherwise no change and the same answer as FetchOneReview |
| Handlers.DeleteReview | test.py:159-167 | removes exactly the first matching review of the first matching business; when the business or the review is missing the whole directory is unchanged |
| Records.Seed | test.py:6-35 | the process starts with businesses 1, 2, 3 and 4 in that order, none with reviews |
| Handlers.NextReviewId | test.py:111-114 | 1 for a business without reviews, else the last review's id + 1; with increasing review ids it is above every id the business holds, so it is fresh |
| Properties.SeedIsWellFormed | test.py:6-35 | the seeded businesses have strictly increasing ids, and so do the reviews of each |
| Properties.WellFormedFromParts | test.py:77-79 | a directory with the same business ids and review ids as a well-formed one is well formed |
| Properties.AddBusinessKeepsWellFormed | test.py:58-67 | the new business id is larger than every existing id, so it is fresh, and the directory stays well formed |
| Properties.EditBusinessKeepsWellFormed | test.py:75-80 | editing a business keeps the directory well formed |
| Properties.RemoveBusinessAtKeepsWellFormed | test.py:90 | dropping one business keeps the directory well formed |
| Properties.DeleteBusinessKeepsWellFormed | test.py:88-91 | deleting a business keeps the directory well formed |
| Properties.DeleteBusinessIdempotent | test.py:87-92 | after a delete the id is gone, and deleting it again leaves the directory as after the first delete |
| Properties.AddNewReviewKeepsWellFormed | test.py:109-123 | the new review id is larger than every review id of that business, and the directory stays well formed |
| Properties.EditReviewKeepsWellFormed | test.py:144-152 | editing a review keeps the directory well formed |
| Properties.DeleteReviewKeepsWellFormed | test.py:160-166 | deleting a review keeps the directory well formed |
| Properties.AddedReviewIsFetched | test.py:108-137 | a review just added is what fetch_one_review answers for its id, and fetch_all_reviews lists it after the earlier reviews |
| Properties.DeletedReviewIsGone | test.py:159-167 | after delete_review the review id is no longer in that business, and a second delete changes nothing |
| Properties.DeleteLastThenAddReusesIds | test.py:58 | deleting the last business and adding another gives an id no larger than the deleted one |
| Properties.SeedReusesDeletedId | test.py:58 | on the seed data, deleting business 4 and adding a business hands out id 4 again |
| Properties.SeedAddBusinessThenReview | test.py:57-124 | on the seed data, a new business gets id 5 and no reviews, and its first review gets id 1 |
| Properties.SeedMissAnswersLastBusiness | test.py:47-51 | on the seed data, getting or editing an unknown id answers with business 4 and changes nothing |
| BusinessApi.Directory.constructor | test.py:6-35 | the directory starts as the four seeded businesses and is well formed |
| BusinessApi.Directory.ShowAllBusinesses | test.py:40-41 | answers with the whole list, reviews included |
| BusinessApi.Directory.ShowOneBusiness | test.py:47-51 | the scan's answer equals Handlers.ShowOneBusiness |
| BusinessApi.Directory.AddBusiness | test.py:57-68 | new list and answer as Handlers.AddBusiness; well-formedness kept |
| BusinessApi.Directory.EditBusiness | test.py:74-81 | new list and answer as Handlers.EditBusiness; well-formedness kept |
| BusinessApi.Directory.DeleteBusiness | test.py:87-92 | new list as Handlers.DeleteBusiness; well-formedness kept |
| BusinessApi.Directory.FetchAllReviews | test.py:98-102 | answer equals Handlers.FetchAllReviews |
| BusinessApi.Directory.AddNewReview | test.py:108-124 | new list and answer as Handlers.AddNewReview; well-formedness kept |
| BusinessApi.Directory.FetchOneReview | test.py:130-137 | nested scan's answer equals Handlers.FetchOneReview |
| BusinessApi.Directory.EditReview | test.py:143-153 | new list and answer as Handlers.EditReview; well-formedness kept |
| BusinessApi.Directory.DeleteReview | test.py:159-167 | new list as Handlers.DeleteReview; well-formedness kept |

## Left out

- Flask routing, `make_response`/`jsonify` serialisation, HTTP status codes and `app.run` (test.py:1-3, 39-46, 171-172) are framework plumbing. Handlers return the record, the exception, or nothing for the empty-object answer of the deletes.
- The `request.form[...]` lookups and the `BadRequest` a missing field raises are not modelled. Form fields are method parameters and are always present. So the partial update that `edit_business` and `edit_review` leave when a later field is missing (test.py:77-79, 148-150) is not modelled either.
- The `print(next_id)` debug output (test.py:59) has no effect on state and is not modelled.
- Concurrency over the shared list is not modelled. The source has no locking, and the model is sequential.
- Flask's `<int:...>` converter only passes non-negative integers. The model accepts any integer id, which is a superset.
- In-place mutation of a business or review dictionary is modelled as replacing that element of the list. Aliasing is not modelled. No handler keeps a reference past its own response.
- Python's `list.remove` raises `ValueError` on an absent value. That path is not modelled because the handlers only remove an element they just found. `Lists.RemoveValue` requires the value to be present.
- Properties.DeleteBusinessIdempotent: proved only for well-formed directories, where ids are unique. With a duplicate id, a second delete removes the next business with that id. Duplicates cannot arise from the seed data through the handlers.
- Properties.DeletedReviewIsGone: proved only for well-formed directories, for the same reason.
- job_search_app/app.py and weather_app/app.py are not part of this model. They are HTTP proxies to external APIs, with environment loading, templates and floating-point rounding.
