/** The process-wide `businesses` list and the ten route handlers that read
    it and change it in place. Each handler scans the list with a loop that
    stops at the first matching id; the state it leaves and the answer it
    gives are those of the matching function in module Handlers. */
module BusinessApi {
  import opened Lists
  import opened Records
  import Handlers
  import Properties

  class Directory {
    var businesses: seq<Business>

    /** The directory the process starts with. */
    constructor ()
      ensures businesses == Seed()
      ensures WellFormed(businesses)
    {
      businesses := Seed();
      Properties.SeedIsWellFormed();
    }

    /** GET /businesses */
    method ShowAllBusinesses() returns (r: seq<Business>)
      ensures r == businesses
    {
      r := businesses;
    }

    /** GET /businesses/<id> */
    method ShowOneBusiness(id: int) returns (r: Outcome<Business>)
      ensures r == Handlers.ShowOneBusiness(businesses, id)
    {
      var stop := ScanFor(BusinessIds(businesses), id);
      match stop
      case None =>
        r := Fail(UnboundLocal);
      case Some(k) =>
        r := Ok(businesses[k]);
    }

    /** POST /businesses */
    method AddBusiness(name: string, town: string, rating: string) returns (r: Outcome<Business>)
      modifies this
      ensures Handlers.Effect(businesses, r) == Handlers.AddBusiness(old(businesses), name, town, rating)
      ensures old(WellFormed(businesses)) ==> WellFormed(businesses)
    {
      if WellFormed(businesses) {
        Properties.AddBusinessKeepsWellFormed(businesses, name, town, rating);
      }
      if businesses == [] {
        r := Fail(IndexError);
        return;
      }
      var nextId := businesses[|businesses| - 1].id + 1;
      var created := Business(nextId, name, town, Text(rating), []);
      businesses := businesses + [created];
      r := Ok(created);
    }

    /** PUT /businesses/<id> */
    method EditBusiness(id: int, name: string, town: string, rating: string) returns (r: Outcome<Business>)
      modifies this
      ensures Handlers.Effect(businesses, r) == Handlers.EditBusiness(old(businesses), id, name, town, rating)
      ensures old(WellFormed(businesses)) ==> WellFormed(businesses)
    {
      if WellFormed(businesses) {
        Properties.EditBusinessKeepsWellFormed(businesses, id, name, town, rating);
      }
      var stop := ScanFor(BusinessIds(businesses), id);
      match stop
      case None =>
        r := Fail(UnboundLocal);
      case Some(k) =>
        if businesses[k].id == id {
          var edited := businesses[k].(name := name, town := town, rating := Text(rating));
          businesses := businesses[k := edited];
          r := Ok(edited);
        } else {
          r := Ok(businesses[k]);
        }
    }

    /** DELETE /businesses/<id>; the answer is always an empty object. */
    method DeleteBusiness(id: int)
      modifies this
      ensures businesses == Handlers.DeleteBusiness(old(businesses), id)
      ensures old(WellFormed(businesses)) ==> WellFormed(businesses)
    {
      if WellFormed(businesses) {
        Properties.DeleteBusinessKeepsWellFormed(businesses, id);
      }
      var stop := ScanFor(BusinessIds(businesses), id);
      if stop.Some? && businesses[stop.value].id == id {
        businesses := RemoveValue(businesses, businesses[stop.value]);
      }
    }

    /** GET /businesses/<id>/reviews */
    method FetchAllReviews(id: int) returns (r: Outcome<seq<Review>>)
      ensures r == Handlers.FetchAllReviews(businesses, id)
    {
      var stop := ScanFor(BusinessIds(businesses), id);
      match stop
      case None =>
        r := Fail(UnboundLocal);
      case Some(k) =>
        r := Ok(businesses[k].reviews);
    }

    /** POST /businesses/<bId>/reviews */
    method AddNewReview(bId: int, username: string, comment: string, stars: string) returns (r: Outcome<Review>)
      modifies this
      ensures Handlers.Effect(businesses, r) == Handlers.AddNewReview(old(businesses), bId, username, comment, stars)
      ensures old(WellFormed(businesses)) ==> WellFormed(businesses)
    {
      if WellFormed(businesses) {
        Properties.AddNewReviewKeepsWellFormed(businesses, bId, username, comment, stars);
      }
      r := Fail(UnboundLocal);
      var stop := ScanFor(BusinessIds(businesses), bId);
      if stop.Some? && businesses[stop.value].id == bId {
        var k := stop.value;
        var reviews := businesses[k].reviews;
        var reviewId := if |reviews| == 0 then 1 else reviews[|reviews| - 1].id + 1;
        var review := Review(reviewId, username, comment, Text(stars));
        businesses := businesses[k := businesses[k].(reviews := reviews + [review])];
        r := Ok(review);
      }
    }

    /** GET /businesses/<bId>/reviews/<rId> */
    method FetchOneReview(bId: int, rId: int) returns (r: Outcome<Review>)
      ensures r == Handlers.FetchOneReview(businesses, bId, rId)
    {
      r := Fail(UnboundLocal);
      var stop := ScanFor(BusinessIds(businesses), bId);
      if stop.Some? && businesses[stop.value].id == bId {
        var reviews := businesses[stop.value].reviews;
        var inner := ScanFor(ReviewIds(reviews), rId);
        if inner.Some? {
          r := Ok(reviews[inner.value]);
        }
      }
    }

    /** PUT /businesses/<bId>/reviews/<rId> */
    method EditReview(bId: int, rId: int, username: string, comment: string, stars: string) returns (r: Outcome<Review>)
      modifies this
      ensures Handlers.Effect(businesses, r) == Handlers.EditReview(old(businesses), bId, rId, username, comment, stars)
      ensures old(WellFormed(businesses)) ==> WellFormed(businesses)
    {
      if WellFormed(businesses) {
        Properties.EditReviewKeepsWellFormed(businesses, bId, rId, username, comment, stars);
      }
      r := Fail(UnboundLocal);
      var stop := ScanFor(BusinessIds(businesses), bId);
      if stop.Some? && businesses[stop.value].id == bId {
        var k := stop.value;
        var reviews := businesses[k].reviews;
        var inner := ScanFor(ReviewIds(reviews), rId);
        if inner.Some? {
          var i := inner.value;
          if reviews[i].id == rId {
            var edited := reviews[i].(username := username, comment := comment, stars := Text(stars));
            businesses := businesses[k := businesses[k].(reviews := reviews[i := edited])];
            r := Ok(edited);
          } else {
            r := Ok(reviews[i]);
          }
        }
      }
    }

    /** DELETE /businesses/<bId>/reviews/<rId>; the answer is always an empty object. */
    method DeleteReview(bId: int, rId: int)
      modifies this
      ensures businesses == Handlers.DeleteReview(old(businesses), bId, rId)
      ensures old(WellFormed(businesses)) ==> WellFormed(businesses)
    {
      if WellFormed(businesses) {
        Properties.DeleteReviewKeepsWellFormed(businesses, bId, rId);
      }
      var stop := ScanFor(BusinessIds(businesses), bId);
      if stop.Some? && businesses[stop.value].id == bId {
        var k := stop.value;
        var reviews := businesses[k].reviews;
        var inner := ScanFor(ReviewIds(reviews), rId);
        if inner.Some? && reviews[inner.value].id == rId {
          businesses := businesses[k := businesses[k].(reviews := RemoveValue(reviews, reviews[inner.value]))];
        }
      }
    }
  }
}
