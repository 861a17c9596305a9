/** The allow-list decision of the `origin` callback in src/middlewares/corsMiddleware.ts. */
module Cors {
  import opened Wrappers

  /** The five origins the middleware accepts, in the order they are listed. */
  const AllowedOrigins: seq<string> := [
    "http://localhost:4001",
    "https://3d-planner-react.vercel.app",
    "http://localhost:5174",
    "https://kitchendesign3d-admin-demo.vercel.app",
    "http://localhost:3000"
  ]

  const NotAllowedMessage: string := "Not allowed by CORS"

  /**
   * The single call the callback receives: `callback(null, true)` or
   * `callback(new Error(message))`. Returning one value models "invoked
   * exactly once".
   */
  datatype Decision = Allow | Deny(error: string)

  /** `Array.prototype.indexOf` with strict equality: the first position of x, or -1. */
  function IndexOf(xs: seq<string>, x: string): (i: int)
    ensures -1 <= i < |xs|
    ensures i == -1 <==> x !in xs
    ensures 0 <= i ==> xs[i] == x && x !in xs[..i]
  {
    if xs == [] then -1
    else if xs[0] == x then 0
    else
      var j := IndexOf(xs[1..], x);
      if j == -1 then -1
      else
        assert xs[..j + 1] == [xs[0]] + xs[1..][..j];
        j + 1
  }

  /**
   * The decision for the request's Origin header; `None` is a missing header.
   * `!origin` also lets the empty string through.
   */
  function OriginDecision(origin: Option<string>): (d: Decision)
    ensures d == Allow <==>
      origin == None || origin == Some("") || (origin.Some? && origin.value in AllowedOrigins)
    ensures d != Allow ==> d == Deny(NotAllowedMessage)
  {
    if origin == None || origin == Some("") then Allow
    else if IndexOf(AllowedOrigins, origin.value) != -1 then Allow
    else Deny(NotAllowedMessage)
  }

  /** A request without an Origin header (curl, mobile apps) is allowed. */
  lemma NoOriginAllowed()
    ensures OriginDecision(None) == Allow
  {
  }

  /** Each listed origin is allowed. */
  lemma ListedOriginsAllowed(i: int)
    requires 0 <= i < |AllowedOrigins|
    ensures OriginDecision(Some(AllowedOrigins[i])) == Allow
  {
  }

  /** Any other origin is refused with the "Not allowed by CORS" error. */
  lemma UnlistedOriginDenied(o: string)
    requires o != "" && o !in AllowedOrigins
    ensures OriginDecision(Some(o)) == Deny(NotAllowedMessage)
  {
  }

  /**
   * Matching is exact: no case folding and no trailing-slash normalisation,
   * and the literal origin "null" (sandboxed documents) is refused.
   */
  lemma MatchingIsExact()
    ensures OriginDecision(Some("http://localhost:3000")) == Allow
    ensures OriginDecision(Some("HTTP://LOCALHOST:3000")) == Deny(NotAllowedMessage)
    ensures OriginDecision(Some("http://localhost:3000/")) == Deny(NotAllowedMessage)
    ensures OriginDecision(Some("null")) == Deny(NotAllowedMessage)
  {
  }
}
