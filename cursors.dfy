/**
 * The Find-then-iterate pattern every listing of the store follows: a first
 * loop drains the cursor into a slice, a second loop transforms each record
 * into its domain form. A Find error, a decode error or a transform error
 * returns no list at all; a failure of the cursor's own iteration is not
 * checked and ends the first loop early (see `ReadCursor`).
 */
module Cursors {
  import opened Errors

  /** What the driver does during one Find and its iteration. */
  datatype CursorFault =
    | NoFault
    | FindFails(error: Error)             // Find itself returns an error
    | DecodeFails(at: nat, error: Error)  // decoding the document at position `at` fails
    | NextFails(at: nat, error: Error)    // fetching the document at position `at` fails:
                                          // Next reports false and keeps the error for Err

  /**
   * The records the first loop collects, or the driver's error. The loop runs
   * while Next reports a document and never consults Err afterwards, so a
   * failed fetch ends it like the end of the data: the records read so far
   * are returned as a success.
   */
  function ReadCursor<T>(docs: seq<T>, fault: CursorFault): (r: Result<seq<T>>)
    ensures r.Success? <==> !fault.FindFails? && !(fault.DecodeFails? && fault.at < |docs|)
    ensures r.Success? ==> r.value <= docs
    ensures r.Success? ==> (|r.value| < |docs| <==> fault.NextFails? && fault.at < |docs|)
    ensures r.Success? && fault.NextFails? && fault.at < |docs| ==> |r.value| == fault.at
    ensures r.Failure? ==> r.error == fault.error
  {
    match fault
    case NoFault => Success(docs)
    case FindFails(e) => Failure(e)
    case DecodeFails(k, e) => if k < |docs| then Failure(e) else Success(docs)
    case NextFails(k, _) => if k < |docs| then Success(docs[..k]) else Success(docs)
  }

  /**
   * The first loop as evidently intended: Err is consulted after the loop,
   * so a failed fetch is reported instead of a shortened list.
   */
  function CheckedReadCursor<T>(docs: seq<T>, fault: CursorFault): (r: Result<seq<T>>)
    ensures r.Success? <==> fault.NoFault? || (!fault.FindFails? && fault.at >= |docs|)
    ensures r.Success? ==> r.value == docs
    ensures r.Failure? ==> r.error == fault.error
  {
    match ReadCursor(docs, fault)
    case Failure(e) => Failure(e)
    case Success(d) => if fault.NextFails? && fault.at < |docs| then Failure(fault.error) else Success(d)
  }

  /**
   * A fetch that fails part-way: the loop as written reports success with a
   * strict prefix of the data, the checked loop reports the error.
   */
  lemma UncheckedNextFailure<T>(docs: seq<T>, k: nat, e: Error)
    requires k < |docs|
    ensures ReadCursor(docs, NextFails(k, e)) == Success(docs[..k])
    ensures |ReadCursor(docs, NextFails(k, e)).value| < |docs|
    ensures CheckedReadCursor(docs, NextFails(k, e)) == Failure(e)
  {
  }

  /** Transform every element in order; the first failure is the result. */
  function MapAll<T, U>(s: seq<T>, f: T -> Result<U>): Result<seq<U>>
    decreases |s|
  {
    if |s| == 0 then Success([])
    else match MapAll(s[..|s| - 1], f)
      case Failure(e) => Failure(e)
      case Success(prefix) =>
        match f(s[|s| - 1])
        case Failure(e) => Failure(e)
        case Success(u) => Success(prefix + [u])
  }

  /** A listing: drain the cursor, then transform every record. */
  function Listing<T, U>(docs: seq<T>, fault: CursorFault, f: T -> Result<U>): Result<seq<U>> {
    match ReadCursor(docs, fault)
    case Failure(e) => Failure(e)
    case Success(d) => MapAll(d, f)
  }

  /** MapAll succeeds with `r` exactly when `r` holds, in order, the transform of every element. */
  lemma {:induction false} MapAllSuccess<T, U>(s: seq<T>, f: T -> Result<U>, r: seq<U>)
    ensures MapAll(s, f) == Success(r) <==>
      |r| == |s| && forall i :: 0 <= i < |s| ==> f(s[i]) == Success(r[i])
  {
    if |s| > 0 {
      var n := |s| - 1;
      assert forall i :: 0 <= i < n ==> s[..n][i] == s[i];
      if MapAll(s, f) == Success(r) {
        var prefix := MapAll(s[..n], f).value;
        MapAllSuccess(s[..n], f, prefix);
        assert r == prefix + [f(s[n]).value];
      }
      if |r| == |s| && forall i :: 0 <= i < |s| ==> f(s[i]) == Success(r[i]) {
        var m := |r| - 1;
        MapAllSuccess(s[..n], f, r[..m]);
        assert r[..m] + [r[m]] == r;
      }
    }
  }

  /** Once a prefix has failed, the whole transform fails with the same error. */
  lemma {:induction false} MapAllPrefixFailure<T, U>(s: seq<T>, f: T -> Result<U>, k: nat)
    requires k <= |s| && MapAll(s[..k], f).Failure?
    ensures MapAll(s, f) == MapAll(s[..k], f)
    decreases |s|
  {
    if k < |s| {
      var n := |s| - 1;
      assert s[..n][..k] == s[..k];
      MapAllPrefixFailure(s[..n], f, k);
    } else {
      assert s[..k] == s;
    }
  }

  /** The transform fails exactly when some element fails, and then with the first such element's error. */
  lemma MapAllFailure<T, U>(s: seq<T>, f: T -> Result<U>)
    ensures MapAll(s, f).Failure? <==> exists i :: 0 <= i < |s| && f(s[i]).Failure?
    ensures MapAll(s, f).Failure? ==>
      exists i :: 0 <= i < |s| && f(s[i]) == Failure(MapAll(s, f).error)
        && forall j :: 0 <= j < i ==> f(s[j]).Success?
  {
    var i := 0;
    var out := [];
    while i < |s| && f(s[i]).Success?
      invariant 0 <= i <= |s|
      invariant MapAll(s[..i], f) == Success(out)
    {
      MapAllStep(s, f, i, out);
      out := out + [f(s[i]).value];
      i := i + 1;
    }
    if i < |s| {
      MapAllStep(s, f, i, out);
      MapAllPrefixFailure(s, f, i + 1);
    } else {
      assert s[..i] == s;
      MapAllSuccess(s, f, out);
    }
  }

  /** One step of MapAll over a growing prefix. */
  lemma MapAllStep<T, U>(s: seq<T>, f: T -> Result<U>, i: nat, out: seq<U>)
    requires i < |s| && MapAll(s[..i], f) == Success(out)
    ensures MapAll(s[..i + 1], f) ==
      match f(s[i]) case Failure(e) => Failure(e) case Success(u) => Success(out + [u])
  {
    assert s[..i + 1][..i] == s[..i];
  }

  /**
   * A listing succeeds with `r` exactly when the first loop delivered records
   * and `r` holds one transformed record per delivered record, in storage
   * order; the delivered records are all of them unless a fetch failed.
   */
  lemma ListingSuccess<T, U>(docs: seq<T>, fault: CursorFault, f: T -> Result<U>, r: seq<U>)
    ensures Listing(docs, fault, f) == Success(r) <==>
      ReadCursor(docs, fault).Success?
      && |r| == |ReadCursor(docs, fault).value|
      && forall i :: 0 <= i < |r| ==> f(docs[i]) == Success(r[i])
    ensures Listing(docs, fault, f) == Success(r) ==>
      |r| <= |docs| && (|r| == |docs| <==> !(fault.NextFails? && fault.at < |docs|))
  {
    var c := ReadCursor(docs, fault);
    if c.Success? {
      MapAllSuccess(c.value, f, r);
      assert forall i :: 0 <= i < |c.value| ==> c.value[i] == docs[i];
    }
  }

  /**
   * The first loop of a listing: drain the cursor, returning on a decode
   * error and stopping, without an error, when a fetch fails.
   */
  method ReadAll<T>(docs: seq<T>, fault: CursorFault) returns (r: Result<seq<T>>)
    ensures r == ReadCursor(docs, fault)
  {
    if fault.FindFails? {
      return Failure(fault.error);
    }
    var buffered: seq<T> := [];
    var i := 0;
    while i < |docs| && !(fault.NextFails? && fault.at == i)
      invariant 0 <= i <= |docs|
      invariant buffered == docs[..i]
      invariant fault.DecodeFails? || fault.NextFails? ==> i <= fault.at
    {
      if fault.DecodeFails? && fault.at == i {
        return Failure(fault.error);
      }
      buffered := buffered + [docs[i]];
      i := i + 1;
    }
    if i == |docs| {
      assert docs[..i] == docs;
    }
    return Success(buffered);
  }

  /** The second loop of a listing: transform each record, returning on the first error. */
  method TransformAll<T, U>(s: seq<T>, f: T -> Result<U>) returns (r: Result<seq<U>>)
    ensures r == MapAll(s, f)
  {
    var out: seq<U> := [];
    var i := 0;
    while i < |s|
      invariant 0 <= i <= |s|
      invariant MapAll(s[..i], f) == Success(out)
    {
      MapAllStep(s, f, i, out);
      var x := f(s[i]);
      if x.Failure? {
        MapAllPrefixFailure(s, f, i + 1);
        return Failure(x.error);
      }
      out := out + [x.value];
      i := i + 1;
    }
    assert s[..i] == s;
    return Success(out);
  }
}
