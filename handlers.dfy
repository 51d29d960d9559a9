/** What each request handler of the directory does, as a function of the
    directory before the request: the directory after it and the record
    (or exception) it answers with. The handlers that only read return the
    answer alone; the two deletes always answer with an empty object, so
    they return the new directory alone. */
module Handlers {
  import opened Lists
  import opened Records

  /** The directory after a request, and what the handler answered. */
  datatype Effect<+T> = Effect(after: seq<Business>, result: Outcome<T>)

  /** Position of the first business with id `id`; |bs| when there is none. */
  function FindBusiness(bs: seq<Business>, id: int): (k: nat)
    ensures k <= |bs|
    ensures k < |bs| <==> id in BusinessIds(bs)
    ensures k < |bs| ==> bs[k].id == id
    ensures forall j :: 0 <= j < k ==> bs[j].id != id
  {
    FirstIndex(BusinessIds(bs), id)
  }

  /** Position of the first review with id `id`; |rs| when there is none. */
  function FindReview(rs: seq<Review>, id: int): (k: nat)
    ensures k <= |rs|
    ensures k < |rs| <==> id in ReviewIds(rs)
    ensures k < |rs| ==> rs[k].id == id
    ensures forall j :: 0 <= j < k ==> rs[j].id != id
  {
    FirstIndex(ReviewIds(rs), id)
  }

  /** The directory holds business `bId`, and that business holds review `rId`. */
  predicate HasReview(bs: seq<Business>, bId: int, rId: int) {
    bId in BusinessIds(bs) && rId in ReviewIds(bs[FindBusiness(bs, bId)].reviews)
  }

  /** show_one_business: the first business with the id; the last business
      when none has it; unbound when the directory is empty. */
  function ShowOneBusiness(bs: seq<Business>, id: int): (r: Outcome<Business>)
    ensures r.Fail? <==> bs == []
    ensures r.Fail? ==> r.error == UnboundLocal
    ensures id in BusinessIds(bs) ==> r == Ok(bs[FindBusiness(bs, id)])
    ensures bs != [] && id !in BusinessIds(bs) ==> r == Ok(bs[|bs| - 1])
  {
    match LoopStop(BusinessIds(bs), id)
    case None => Fail(UnboundLocal)
    case Some(k) => Ok(bs[k])
  }

  /** add_business: the new id is the LAST business's id plus one (not the
      largest id); reading the last element of an empty list raises. */
  function AddBusiness(bs: seq<Business>, name: string, town: string, rating: string): (r: Effect<Business>)
    ensures bs == [] ==> r == Effect(bs, Fail(IndexError))
    ensures bs != [] ==>
      && r.result.Ok?
      && |r.after| == |bs| + 1
      && r.after[..|bs|] == bs
      && r.after[|bs|] == r.result.value
      && r.result.value == Business(bs[|bs| - 1].id + 1, name, town, Text(rating), [])
  {
    if bs == [] then Effect(bs, Fail(IndexError))
    else
      var b := Business(bs[|bs| - 1].id + 1, name, town, Text(rating), []);
      Effect(bs + [b], Ok(b))
  }

  /** edit_business: overwrites name, town and rating of the first business
      with the id; on a miss it changes nothing and answers as
      show_one_business does. */
  function EditBusiness(bs: seq<Business>, id: int, name: string, town: string, rating: string): (r: Effect<Business>)
    ensures |r.after| == |bs|
    ensures forall j :: 0 <= j < |bs| ==>
      r.after[j].id == bs[j].id && r.after[j].reviews == bs[j].reviews
    ensures forall j :: 0 <= j < |bs| && j != FindBusiness(bs, id) ==> r.after[j] == bs[j]
    ensures id in BusinessIds(bs) ==>
      var k := FindBusiness(bs, id);
      r.after[k] == Business(id, name, town, Text(rating), bs[k].reviews) && r.result == Ok(r.after[k])
    ensures id !in BusinessIds(bs) ==> r.after == bs && r.result == ShowOneBusiness(bs, id)
  {
    match LoopStop(BusinessIds(bs), id)
    case None => Effect(bs, Fail(UnboundLocal))
    case Some(k) =>
      if bs[k].id == id then
        var b := bs[k].(name := name, town := town, rating := Text(rating));
        Effect(bs[k := b], Ok(b))
      else
        Effect(bs, Ok(bs[k]))
  }

  /** delete_business: removes the first business with the id, keeping the
      order of the rest; a miss changes nothing. */
  function DeleteBusiness(bs: seq<Business>, id: int): (r: seq<Business>)
    ensures id !in BusinessIds(bs) ==> r == bs
    ensures id in BusinessIds(bs) ==>
      var k := FindBusiness(bs, id);
      |r| == |bs| - 1 && r == bs[..k] + bs[k + 1..]
  {
    match LoopStop(BusinessIds(bs), id)
    case None => bs
    case Some(k) =>
      if bs[k].id == id then
        RemoveValueAt(bs, k);
        RemoveValue(bs, bs[k])
      else
        bs
  }

  /** fetch_all_reviews: the reviews of the business show_one_business
      would answer with. */
  function FetchAllReviews(bs: seq<Business>, id: int): (r: Outcome<seq<Review>>)
    ensures r.Fail? <==> bs == []
    ensures r.Fail? ==> r.error == UnboundLocal
    ensures id in BusinessIds(bs) ==> r == Ok(bs[FindBusiness(bs, id)].reviews)
    ensures bs != [] && id !in BusinessIds(bs) ==> r == Ok(bs[|bs| - 1].reviews)
  {
    match LoopStop(BusinessIds(bs), id)
    case None => Fail(UnboundLocal)
    case Some(k) => Ok(bs[k].reviews)
  }

  /** The id add_new_review gives a new review: 1 for a business without
      reviews, else its LAST review's id plus one. */
  function NextReviewId(rs: seq<Review>): (id: int)
    ensures rs == [] ==> id == 1
    ensures rs != [] ==> id == rs[|rs| - 1].id + 1
    ensures StrictlyIncreasing(ReviewIds(rs)) ==>
      id !in ReviewIds(rs) && forall i :: 0 <= i < |rs| ==> rs[i].id < id
  {
    if rs == [] then 1
    else
      assert StrictlyIncreasing(ReviewIds(rs)) ==> rs[|rs| - 1].id + 1 !in ReviewIds(rs) by {
        if StrictlyIncreasing(ReviewIds(rs)) {
          LastIsMaximum(ReviewIds(rs));
        }
      }
      rs[|rs| - 1].id + 1
  }

  /** add_new_review: appends a review to the first business with the id;
      when there is none, nothing is added and the answer is unbound. */
  function AddNewReview(bs: seq<Business>, bId: int, username: string, comment: string, stars: string): (r: Effect<Review>)
    ensures bId !in BusinessIds(bs) ==> r == Effect(bs, Fail(UnboundLocal))
    ensures bId in BusinessIds(bs) ==>
      var k := FindBusiness(bs, bId);
      && r.result == Ok(Review(NextReviewId(bs[k].reviews), username, comment, Text(stars)))
      && |r.after| == |bs|
      && r.after[k] == bs[k].(reviews := bs[k].reviews + [r.result.value])
      && forall j :: 0 <= j < |bs| && j != k ==> r.after[j] == bs[j]
  {
    match LoopStop(BusinessIds(bs), bId)
    case None => Effect(bs, Fail(UnboundLocal))
    case Some(k) =>
      if bs[k].id == bId then
        var rs := bs[k].reviews;
        var review := Review(NextReviewId(rs), username, comment, Text(stars));
        Effect(bs[k := bs[k].(reviews := rs + [review])], Ok(review))
      else
        Effect(bs, Fail(UnboundLocal))
  }

  /** fetch_one_review: searches the reviews of the first business with the
      id only. The first review with the review id; the last review when
      none has it; unbound when the business is missing or has no reviews. */
  function FetchOneReview(bs: seq<Business>, bId: int, rId: int): (r: Outcome<Review>)
    ensures bId !in BusinessIds(bs) ==> r == Fail(UnboundLocal)
    ensures bId in BusinessIds(bs) ==>
      var rs := bs[FindBusiness(bs, bId)].reviews;
      && (rs == [] ==> r == Fail(UnboundLocal))
      && (rId in ReviewIds(rs) ==> r == Ok(rs[FindReview(rs, rId)]))
      && (rs != [] && rId !in ReviewIds(rs) ==> r == Ok(rs[|rs| - 1]))
  {
    match LoopStop(BusinessIds(bs), bId)
    case None => Fail(UnboundLocal)
    case Some(k) =>
      if bs[k].id != bId then Fail(UnboundLocal)
      else
        match LoopStop(ReviewIds(bs[k].reviews), rId)
        case None => Fail(UnboundLocal)
        case Some(i) => Ok(bs[k].reviews[i])
  }

  /** edit_review: overwrites username, comment and stars of the first
      matching review of the first matching business; otherwise changes
      nothing and answers as fetch_one_review does. */
  function EditReview(bs: seq<Business>, bId: int, rId: int, username: string, comment: string, stars: string): (r: Effect<Review>)
    ensures |r.after| == |bs|
    ensures forall j :: 0 <= j < |bs| ==>
      && r.after[j].id == bs[j].id
      && r.after[j].name == bs[j].name && r.after[j].town == bs[j].town && r.after[j].rating == bs[j].rating
      && |r.after[j].reviews| == |bs[j].reviews|
      && ReviewIds(r.after[j].reviews) == ReviewIds(bs[j].reviews)
    ensures forall j :: 0 <= j < |bs| && j != FindBusiness(bs, bId) ==> r.after[j] == bs[j]
    ensures HasReview(bs, bId, rId) ==>
      var k := FindBusiness(bs, bId);
      var i := FindReview(bs[k].reviews, rId);
      && r.after[k].reviews[i] == Review(rId, username, comment, Text(stars))
      && r.result == Ok(r.after[k].reviews[i])
      && forall i' :: 0 <= i' < |bs[k].reviews| && i' != i ==> r.after[k].reviews[i'] == bs[k].reviews[i']
    ensures !HasReview(bs, bId, rId) ==> r.after == bs && r.result == FetchOneReview(bs, bId, rId)
  {
    match LoopStop(BusinessIds(bs), bId)
    case None => Effect(bs, Fail(UnboundLocal))
    case Some(k) =>
      if bs[k].id != bId then Effect(bs, Fail(UnboundLocal))
      else
        var rs := bs[k].reviews;
        match LoopStop(ReviewIds(rs), rId)
        case None => Effect(bs, Fail(UnboundLocal))
        case Some(i) =>
          if rs[i].id == rId then
            var review := rs[i].(username := username, comment := comment, stars := Text(stars));
            Effect(bs[k := bs[k].(reviews := rs[i := review])], Ok(review))
          else
            Effect(bs, Ok(rs[i]))
  }

  /** delete_review: removes the first matching review of the first
      matching business; when either is missing nothing changes. */
  function DeleteReview(bs: seq<Business>, bId: int, rId: int): (r: seq<Business>)
    ensures !HasReview(bs, bId, rId) ==> r == bs
    ensures HasReview(bs, bId, rId) ==>
      var k := FindBusiness(bs, bId);
      var rs := bs[k].reviews;
      var i := FindReview(rs, rId);
      && |r| == |bs|
      && r[k] == bs[k].(reviews := rs[..i] + rs[i + 1..])
      && forall j :: 0 <= j < |bs| && j != k ==> r[j] == bs[j]
  {
    match LoopStop(BusinessIds(bs), bId)
    case None => bs
    case Some(k) =>
      if bs[k].id != bId then bs
      else
        var rs := bs[k].reviews;
        match LoopStop(ReviewIds(rs), rId)
        case None => bs
        case Some(i) =>
          if rs[i].id == rId then
            RemoveValueAt(rs, i);
            bs[k := bs[k].(reviews := RemoveValue(rs, rs[i]))]
          else
            bs
  }
}
