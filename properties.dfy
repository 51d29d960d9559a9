/** Properties relating several handler calls: every handler keeps the
    directory well formed (ids increasing, hence unique, and the last id
    the largest), deletes are idempotent, and a review added to a business
    can be fetched back until it is deleted. */
module Properties {
  import opened Lists
  import opened Records
  import opened Handlers

  lemma SeedIsWellFormed()
    ensures WellFormed(Seed())
  {
  }

  /** A directory whose businesses have the given ids and reviews is well formed. */
  lemma {:induction false} WellFormedFromParts(bs: seq<Business>, old_bs: seq<Business>)
    requires WellFormed(old_bs)
    requires BusinessIds(bs) == BusinessIds(old_bs)
    requires forall j :: 0 <= j < |bs| ==> ReviewIds(bs[j].reviews) == ReviewIds(old_bs[j].reviews)
    ensures WellFormed(bs)
  {
    assert |bs| == |BusinessIds(bs)| == |old_bs|;
    forall j | 0 <= j < |bs| ensures StrictlyIncreasing(ReviewIds(bs[j].reviews)) {
      assert StrictlyIncreasing(ReviewIds(old_bs[j].reviews));
    }
  }

  /** add_business on a well-formed directory: the new id is larger than
      every id in it, so it is fresh, and the directory stays well formed. */
  lemma {:induction false} AddBusinessKeepsWellFormed(bs: seq<Business>, name: string, town: string, rating: string)
    requires WellFormed(bs)
    ensures var r := AddBusiness(bs, name, town, rating);
      && WellFormed(r.after)
      && (r.result.Ok? ==>
            && r.result.value.id !in BusinessIds(bs)
            && forall j :: 0 <= j < |bs| ==> bs[j].id < r.result.value.id)
  {
    var r := AddBusiness(bs, name, town, rating);
    if bs != [] {
      var ids := BusinessIds(bs);
      var b := r.result.value;
      LastIsMaximum(ids);
      assert r.after == bs + [b];
      assert BusinessIds(r.after) == ids + [b.id];
      IncreasingAppend(ids, b.id);
      forall j | 0 <= j < |r.after| ensures StrictlyIncreasing(ReviewIds(r.after[j].reviews)) {
        if j < |bs| {
          assert r.after[j] == bs[j];
        } else {
          assert ReviewIds(r.after[j].reviews) == [];
        }
      }
    }
  }

  /** edit_business keeps every id and every review, so it keeps the
      directory well formed. */
  lemma {:induction false} EditBusinessKeepsWellFormed(bs: seq<Business>, id: int, name: string, town: string, rating: string)
    requires WellFormed(bs)
    ensures WellFormed(EditBusiness(bs, id, name, town, rating).after)
  {
    var after := EditBusiness(bs, id, name, town, rating).after;
    assert BusinessIds(after) == BusinessIds(bs);
    WellFormedFromParts(after, bs);
  }

  /** Removing one business from a well-formed directory leaves it well formed. */
  lemma {:induction false} RemoveBusinessAtKeepsWellFormed(bs: seq<Business>, k: nat)
    requires WellFormed(bs) && k < |bs|
    ensures WellFormed(bs[..k] + bs[k + 1..])
  {
    var ids := BusinessIds(bs);
    var r := bs[..k] + bs[k + 1..];
    assert BusinessIds(r) == ids[..k] + ids[k + 1..];
    IncreasingRemoveAt(ids, k);
    forall j | 0 <= j < |r| ensures StrictlyIncreasing(ReviewIds(r[j].reviews)) {
      assert r[j] == if j < k then bs[j] else bs[j + 1];
    }
  }

  lemma {:induction false} DeleteBusinessKeepsWellFormed(bs: seq<Business>, id: int)
    requires WellFormed(bs)
    ensures WellFormed(DeleteBusiness(bs, id))
  {
    if id in BusinessIds(bs) {
      RemoveBusinessAtKeepsWellFormed(bs, FindBusiness(bs, id));
    }
  }

  /** In a well-formed directory a deleted id is gone, so deleting it again
      changes nothing. */
  lemma {:induction false} DeleteBusinessIdempotent(bs: seq<Business>, id: int)
    requires WellFormed(bs)
    ensures id !in BusinessIds(DeleteBusiness(bs, id))
    ensures DeleteBusiness(DeleteBusiness(bs, id), id) == DeleteBusiness(bs, id)
  {
    var once := DeleteBusiness(bs, id);
    if id in BusinessIds(bs) {
      var ids := BusinessIds(bs);
      var k := FindBusiness(bs, id);
      IncreasingUnique(ids, k);
      assert once == bs[..k] + bs[k + 1..];
      forall j | 0 <= j < |once| ensures once[j].id != id {
        assert once[j] == if j < k then bs[j] else bs[j + 1];
      }
    }
  }

  /** add_new_review on a well-formed directory: the new review id is larger
      than every review id of that business, and the directory stays well
      formed. */
  lemma {:induction false} AddNewReviewKeepsWellFormed(bs: seq<Business>, bId: int, username: string, comment: string, stars: string)
    requires WellFormed(bs)
    ensures var r := AddNewReview(bs, bId, username, comment, stars);
      && WellFormed(r.after)
      && (r.result.Ok? ==>
            var rs := bs[FindBusiness(bs, bId)].reviews;
            forall i :: 0 <= i < |rs| ==> rs[i].id < r.result.value.id)
  {
    var r := AddNewReview(bs, bId, username, comment, stars);
    if bId in BusinessIds(bs) {
      var k := FindBusiness(bs, bId);
      var rs := bs[k].reviews;
      var review := r.result.value;
      var rids := ReviewIds(rs);
      assert StrictlyIncreasing(rids);
      if rs != [] {
        LastIsMaximum(rids);
      }
      assert ReviewIds(r.after[k].reviews) == rids + [review.id];
      IncreasingAppend(rids, review.id);
      assert BusinessIds(r.after) == BusinessIds(bs);
      forall j | 0 <= j < |r.after| ensures StrictlyIncreasing(ReviewIds(r.after[j].reviews)) {
        if j != k {
          assert r.after[j] == bs[j];
        }
      }
    }
  }

  /** edit_review keeps every id, so it keeps the directory well formed. */
  lemma {:induction false} EditReviewKeepsWellFormed(bs: seq<Business>, bId: int, rId: int, username: string, comment: string, stars: string)
    requires WellFormed(bs)
    ensures WellFormed(EditReview(bs, bId, rId, username, comment, stars).after)
  {
    var after := EditReview(bs, bId, rId, username, comment, stars).after;
    assert BusinessIds(after) == BusinessIds(bs);
    WellFormedFromParts(after, bs);
  }

  lemma {:induction false} DeleteReviewKeepsWellFormed(bs: seq<Business>, bId: int, rId: int)
    requires WellFormed(bs)
    ensures WellFormed(DeleteReview(bs, bId, rId))
  {
    if HasReview(bs, bId, rId) {
      var r := DeleteReview(bs, bId, rId);
      var k := FindBusiness(bs, bId);
      var rs := bs[k].reviews;
      var i := FindReview(rs, rId);
      var rids := ReviewIds(rs);
      assert StrictlyIncreasing(rids);
      assert ReviewIds(r[k].reviews) == rids[..i] + rids[i + 1..];
      IncreasingRemoveAt(rids, i);
      assert BusinessIds(r) == BusinessIds(bs);
      forall j | 0 <= j < |r| ensures StrictlyIncreasing(ReviewIds(r[j].reviews)) {
        if j != k {
          assert r[j] == bs[j];
        }
      }
    }
  }

  /** Round trip: in a well-formed directory, a review just added to a
      business is what fetch_one_review answers for its id, and
      fetch_all_reviews lists it after the earlier ones. */
  lemma {:induction false} AddedReviewIsFetched(bs: seq<Business>, bId: int, username: string, comment: string, stars: string)
    requires WellFormed(bs) && bId in BusinessIds(bs)
    ensures var r := AddNewReview(bs, bId, username, comment, stars);
      && r.result.Ok?
      && FetchOneReview(r.after, bId, r.result.value.id) == r.result
      && FetchAllReviews(r.after, bId) == Ok(bs[FindBusiness(bs, bId)].reviews + [r.result.value])
  {
    var r := AddNewReview(bs, bId, username, comment, stars);
    var k := FindBusiness(bs, bId);
    var rs := bs[k].reviews;
    var review := r.result.value;
    AddNewReviewKeepsWellFormed(bs, bId, username, comment, stars);
    assert BusinessIds(r.after) == BusinessIds(bs);
    assert FindBusiness(r.after, bId) == k;
    var rs' := rs + [review];
    assert r.after[k].reviews == rs';
    assert review.id !in ReviewIds(rs);
    assert ReviewIds(rs') == ReviewIds(rs) + [review.id];
    assert FindReview(rs', review.id) == |rs|;
  }

  /** Round trip: after delete_review the review id is no longer found in
      that business, in a well-formed directory. */
  lemma {:induction false} DeletedReviewIsGone(bs: seq<Business>, bId: int, rId: int)
    requires WellFormed(bs)
    ensures !HasReview(DeleteReview(bs, bId, rId), bId, rId)
    ensures DeleteReview(DeleteReview(bs, bId, rId), bId, rId) == DeleteReview(bs, bId, rId)
  {
    var r := DeleteReview(bs, bId, rId);
    if HasReview(bs, bId, rId) {
      var k := FindBusiness(bs, bId);
      var rs := bs[k].reviews;
      var i := FindReview(rs, rId);
      var rids := ReviewIds(rs);
      assert StrictlyIncreasing(rids);
      IncreasingUnique(rids, i);
      assert BusinessIds(r) == BusinessIds(bs);
      assert FindBusiness(r, bId) == k;
      var rest := rs[..i] + rs[i + 1..];
      assert r[k].reviews == rest;
      forall j | 0 <= j < |rest| ensures rest[j].id != rId {
        assert rest[j] == if j < i then rs[j] else rs[j + 1];
      }
    }
  }

  /** Ids come from the last business, not from a counter: after the last
      business of a well-formed directory is deleted, the next business gets
      an id no larger than the deleted one, so an id can be handed out twice. */
  lemma {:induction false} DeleteLastThenAddReusesIds(bs: seq<Business>, name: string, town: string, rating: string)
    requires WellFormed(bs) && |bs| >= 2
    ensures var gone := bs[|bs| - 1];
      var r := AddBusiness(DeleteBusiness(bs, gone.id), name, town, rating);
      r.result.Ok? && r.result.value.id <= gone.id
  {
    var ids := BusinessIds(bs);
    var n := |bs|;
    IncreasingUnique(ids, n - 1);
    var once := DeleteBusiness(bs, bs[n - 1].id);
    assert once == bs[..n - 1];
    assert ids[n - 2] < ids[n - 1];
  }

  /** With the seed data: deleting business 4 and adding a business hands out id 4 again. */
  lemma SeedReusesDeletedId()
    ensures AddBusiness(DeleteBusiness(Seed(), 4), "Test Cafe", "Goa", "4").result.value.id == 4
  {
    SeedIsWellFormed();
    DeleteLastThenAddReusesIds(Seed(), "Test Cafe", "Goa", "4");
  }

  /** With the seed data: a new business gets id 5 and no reviews, and its
      first review gets id 1. */
  lemma SeedAddBusinessThenReview()
    ensures var added := AddBusiness(Seed(), "Test Cafe", "Goa", "4");
      && added.result == Ok(Business(5, "Test Cafe", "Goa", Text("4"), []))
      && AddNewReview(added.after, 5, "alice", "Great!", "5").result == Ok(Review(1, "alice", "Great!", Text("5")))
  {
    var added := AddBusiness(Seed(), "Test Cafe", "Goa", "4");
    assert BusinessIds(added.after)[4] == 5;
  }

  /** With the seed data: asking for a business id nobody has answers with
      the last business (id 4), and editing that id changes nothing. */
  lemma SeedMissAnswersLastBusiness()
    ensures ShowOneBusiness(Seed(), 99) == Ok(Seed()[3])
    ensures EditBusiness(Seed(), 99, "Test Cafe", "Goa", "4") == Effect(Seed(), Ok(Seed()[3]))
  {
    assert 99 !in BusinessIds(Seed());
  }
}
