/** Values shared by every part of the model: JavaScript's `undefined`
    (Option), settled promises and calls that may throw (Result), and the
    error classes that the scraper's catch blocks tell apart. */
module Basics {

  /** A value or JavaScript's `undefined`. */
  datatype Option<+T> = None | Some(value: T)

  /** The error classes the scraper distinguishes with `instanceof`:
      puppeteer's TimeoutError, the TypeError that `fetch` and property
      access on `undefined` throw, JSON.parse's SyntaxError, and the rest. */
  datatype ErrorKind = TimeoutError | TypeError | SyntaxError | OtherError

  /** A settled promise (fulfilled or rejected), or a call that returns or throws. */
  datatype Result<+T> = Ok(value: T) | Err(error: ErrorKind)

  /** `Promise.all(xs.map(f))`, bluebird's `Promise.map(xs, f)` and cheerio's
      `.map(f)`: every call fulfils and the values come back in the order of
      `xs`, or the whole rejects with the error of a rejected call (the first
      one in the order of `xs`). */
  function MapAll<A, B>(xs: seq<A>, f: A -> Result<B>): (r: Result<seq<B>>)
    ensures r.Ok? <==> forall i :: 0 <= i < |xs| ==> f(xs[i]).Ok?
    ensures r.Ok? ==> |r.value| == |xs| && forall i :: 0 <= i < |xs| ==> f(xs[i]) == Ok(r.value[i])
    ensures r.Err? ==> exists i :: 0 <= i < |xs| && f(xs[i]) == Err(r.error)
  {
    if xs == [] then Ok([])
    else
      match f(xs[0])
      case Err(e) => Err(e)
      case Ok(v) =>
        match MapAll(xs[1..], f)
        case Err(e) => Err(e)
        case Ok(vs) => Ok([v] + vs)
  }

  /** The error MapAll rejects with is that of the first call that rejects. */
  lemma {:induction false} MapAllFirstError<A, B>(xs: seq<A>, f: A -> Result<B>, i: nat)
    requires i < |xs| && f(xs[i]).Err?
    requires forall j :: 0 <= j < i ==> f(xs[j]).Ok?
    ensures MapAll(xs, f) == Err(f(xs[i]).error)
  {
    if i > 0 {
      assert forall j :: 0 <= j < i - 1 ==> f(xs[1..][j]).Ok? by {
        forall j | 0 <= j < i - 1 ensures f(xs[1..][j]).Ok? {
          assert xs[1..][j] == xs[j + 1];
        }
      }
      MapAllFirstError(xs[1..], f, i - 1);
    }
  }

  /** MapAll rejects only with an error one of the calls rejects with: when
      every rejecting call rejects with e, so does MapAll. */
  lemma {:induction false} MapAllRejectsWith<A, B>(xs: seq<A>, f: A -> Result<B>, e: ErrorKind)
    requires forall i :: 0 <= i < |xs| && f(xs[i]).Err? ==> f(xs[i]).error == e
    ensures MapAll(xs, f).Err? ==> MapAll(xs, f).error == e
  {
    if xs != [] && f(xs[0]).Ok? {
      assert forall i :: 0 <= i < |xs[1..]| && f(xs[1..][i]).Err? ==> f(xs[1..][i]).error == e by {
        forall i | 0 <= i < |xs[1..]| ensures f(xs[1..][i]).Err? ==> f(xs[1..][i]).error == e {
          assert xs[1..][i] == xs[i + 1];
        }
      }
      MapAllRejectsWith(xs[1..], f, e);
    }
  }
}
