/** The records of the business directory: a business with its reviews, the
    four seeded businesses, and the Python exceptions a handler can end in. */
module Records {
  import opened Lists

  /** A rating or a star count. The seeded businesses hold integers; every
      value a handler stores comes from a submitted form field, so it is
      text. No handler inspects or validates it. */
  datatype Value = Num(n: int) | Text(s: string)

  datatype Review = Review(id: int, username: string, comment: string, stars: Value)

  datatype Business = Business(id: int, name: string, town: string, rating: Value, reviews: seq<Review>)

  /** The exceptions the handlers can raise; the framework answers each with
      an HTTP 500. */
  datatype Error =
    | UnboundLocal  // a local variable read although no statement assigned it
    | IndexError    // `businesses[-1]` on an empty list

  /** What a handler returns: the record it serialises, or the exception it raised. */
  datatype Outcome<+T> = Ok(value: T) | Fail(error: Error)

  /** The hard-coded directory the process starts with: businesses 1 to 4
      in order, none of them reviewed yet. */
  function Seed(): (s: seq<Business>)
    ensures BusinessIds(s) == [1, 2, 3, 4]
    ensures forall j :: 0 <= j < |s| ==> s[j].reviews == []
  {
    [ Business(1, "Spice Route Kerala", "Kochi", Num(5), []),
      Business(2, "Punjab Tandoori House", "Lahore", Num(4), []),
      Business(3, "Dhaka Street Biryani", "Dhaka", Num(4), []),
      Business(4, "Kathmandu Momo Corner", "Kathmandu", Num(5), []) ]
  }

  function BusinessIds(bs: seq<Business>): (ids: seq<int>)
    ensures |ids| == |bs|
    ensures forall j :: 0 <= j < |bs| ==> ids[j] == bs[j].id
  {
    seq(|bs|, j requires 0 <= j < |bs| => bs[j].id)
  }

  function ReviewIds(rs: seq<Review>): (ids: seq<int>)
    ensures |ids| == |rs|
    ensures forall j :: 0 <= j < |rs| ==> ids[j] == rs[j].id
  {
    seq(|rs|, j requires 0 <= j < |rs| => rs[j].id)
  }

  /** The ordering the seed data has and every id-assigning handler relies
      on: business ids increase along the list, and so do the review ids
      within each business. */
  ghost predicate WellFormed(bs: seq<Business>) {
    && StrictlyIncreasing(BusinessIds(bs))
    && forall j :: 0 <= j < |bs| ==> StrictlyIncreasing(ReviewIds(bs[j].reviews))
  }
}
