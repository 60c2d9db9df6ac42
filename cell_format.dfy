/**
 * `formatCell` (example/src/utils.ts): the display string of one table
 * cell. Falsy values show as "N/A"; arrays have every element formatted
 * (numbers by the precision rule, strings verbatim, anything else throws)
 * and, when longer than `n`, are cut to their first and last `n / 2`
 * elements around "..." and bracketed; numbers use `toFixed(precision)`
 * when a precision is given and `toString()` otherwise.
 *
 * JavaScript's number rendering (`toFixed`, `toString`) and the
 * `toString()` of other values are not interpreted: they are the fields of a
 * `Display` passed in by the caller.
 */
module CellFormat {
  import opened Wrappers
  import opened JsValues

  /** The renderings the formatter relies on but does not define. */
  datatype Display = Display(
    toFixed: (real, nat) -> string,
    numberToString: real -> string,
    valueToString: JsValue -> string)

  /** `Error(`unsupported type ${typeof value}`)`, with its message. */
  datatype FormatError = FormatError(message: string)

  /** `formatNumber`: `toFixed(precision)` when a precision is given, else `toString()`. */
  function FormatNumber(num: real, precision: Option<nat>, d: Display): (r: string)
    ensures precision.Some? ==> r == d.toFixed(num, precision.value)
    ensures precision == None ==> r == d.numberToString(num)
  {
    if precision.Some? then d.toFixed(num, precision.value) else d.numberToString(num)
  }

  /** An array element `formatArray` accepts: a number or a string. */
  predicate Formattable(v: JsValue) {
    TypeOf(v) == "number" || TypeOf(v) == "string"
  }

  /** An accepted element's text: a number by the precision rule, a string verbatim. */
  function FormatElement(v: JsValue, precision: Option<nat>, d: Display): string
    requires Formattable(v)
  {
    if v.JsNumber? then FormatNumber(v.num, precision, d) else v.str
  }

  /** The formatted elements of an array whose elements are all accepted. */
  function FormatAll(elems: seq<JsValue>, precision: Option<nat>, d: Display): seq<string>
    requires forall i :: 0 <= i < |elems| ==> Formattable(elems[i])
  {
    seq(|elems|, i requires 0 <= i < |elems| => FormatElement(elems[i], precision, d))
  }

  /**
   * `formatArray`: pushes each element's text in order; the first element
   * that is neither a number nor a string throws, naming its `typeof`.
   */
  method FormatArray(elems: seq<JsValue>, precision: Option<nat>, d: Display)
    returns (r: Result<seq<string>, FormatError>)
    ensures r.Ok? <==> forall i :: 0 <= i < |elems| ==> Formattable(elems[i])
    ensures r.Ok? ==> |r.value| == |elems|
    ensures r.Ok? ==> forall i :: 0 <= i < |elems| ==> r.value[i] == FormatElement(elems[i], precision, d)
    ensures r.Err? ==> exists i :: 0 <= i < |elems| && !Formattable(elems[i]) &&
                                   (forall j :: 0 <= j < i ==> Formattable(elems[j])) &&
                                   r.error == FormatError("unsupported type " + TypeOf(elems[i]))
  {
    var newArray: seq<string> := [];
    for i := 0 to |elems|
      invariant |newArray| == i
      invariant forall k :: 0 <= k < i ==> Formattable(elems[k]) && newArray[k] == FormatElement(elems[k], precision, d)
    {
      var value := elems[i];
      if TypeOf(value) == "number" {
        newArray := newArray + [FormatNumber(value.num, precision, d)];
      } else if TypeOf(value) == "string" {
        newArray := newArray + [value.str];
      } else {
        return Err(FormatError("unsupported type " + TypeOf(value)));
      }
    }
    return Ok(newArray);
  }

  // ---------------------------------------------------------------------
  // Joining and eliding

  /** `Array.prototype.join(sep)` on strings. */
  function Join(ss: seq<string>, sep: string): string {
    if |ss| == 0 then ""
    else if |ss| == 1 then ss[0]
    else ss[0] + sep + Join(ss[1..], sep)
  }

  /** An argument of `Array.prototype.slice` resolved against the length: negatives count from the end. */
  function RelativeIndex(k: int, len: nat): (r: nat)
    ensures r <= len
    ensures 0 <= k <= len ==> r == k
  {
    if k < 0 then (if len + k < 0 then 0 else len + k)
    else if k > len then len
    else k
  }

  /** `s.slice(start, end)`. */
  function Slice<T>(s: seq<T>, start: int, end: int): seq<T> {
    var from := RelativeIndex(start, |s|);
    var to := RelativeIndex(end, |s|);
    if from < to then s[from..to] else []
  }

  /** The items joined for an over-long array: `[...start, "...", ...end]`, where `half = Math.floor(n / 2)`. */
  function ElidedItems(fs: seq<string>, n: int): seq<string> {
    var half := n / 2;
    Slice(fs, 0, half) + ["..."] + Slice(fs, |fs| - half, |fs|)
  }

  /** The display string of formatted array elements, whether or not they are cut. */
  function Elide(fs: seq<string>, n: int): string {
    if |fs| > n then "[" + Join(ElidedItems(fs, n), ", ") + "]"
    else Join(fs, ", ")
  }

  /**
   * For a non-negative bound below the length, the items kept are the first
   * `n / 2` elements, then "...", then the last `n / 2` elements: 2⌊n/2⌋+1
   * items in all.
   */
  lemma ElidedItemsShape(fs: seq<string>, n: int)
    requires 0 <= n < |fs|
    ensures |ElidedItems(fs, n)| == 2 * (n / 2) + 1
    ensures ElidedItems(fs, n)[..n / 2] == fs[..n / 2]
    ensures ElidedItems(fs, n)[n / 2] == "..."
    ensures ElidedItems(fs, n)[n / 2 + 1..] == fs[|fs| - n / 2..]
  {
    var half := n / 2;
    assert Slice(fs, 0, half) == fs[..half];
    assert Slice(fs, |fs| - half, |fs|) == fs[|fs| - half..];
  }

  /** A negative bound: every array exceeds it: `n / 2` is then negative too, and slicing drops elements. */
  lemma NegativeBoundElides(fs: seq<string>, n: int)
    requires n < 0 && |fs| > 0
    ensures Elide(fs, n) == "[" + Join(Slice(fs, 0, n / 2) + ["..."], ", ") + "]"
  {
    assert Slice(fs, |fs| - n / 2, |fs|) == [];
    assert ElidedItems(fs, n) == Slice(fs, 0, n / 2) + ["..."];
  }

  /** An empty array (truthy, so not "N/A") shows as "" against a non-negative bound, and as "[...]" against a negative one. */
  lemma EmptyArrayElides(n: int)
    ensures Elide([], n) == if n >= 0 then "" else "[...]"
  {
    if n < 0 {
      assert ElidedItems([], n) == ["..."];
      assert Join(["..."], ", ") == "...";
      assert "[" + "..." + "]" == "[...]";
    }
  }

  /** The truncation example: ten numbers rendered "0" … "9" with n = 4 give "[0, 1, ..., 8, 9]". */
  lemma ElideTenDigitsToFour()
    ensures Elide(["0", "1", "2", "3", "4", "5", "6", "7", "8", "9"], 4) == "[0, 1, ..., 8, 9]"
  {
    var fs := ["0", "1", "2", "3", "4", "5", "6", "7", "8", "9"];
    assert ElidedItems(fs, 4) == ["0", "1", "...", "8", "9"] by {
      assert Slice(fs, 0, 2) == ["0", "1"];
      assert fs[8..10] == ["8", "9"];
      assert Slice(fs, 8, 10) == ["8", "9"];
    }
    assert Join(["9"], ", ") == "9";
    assert Join(["8", "9"], ", ") == "8, 9";
    assert Join(["...", "8", "9"], ", ") == "..., 8, 9";
    assert Join(["1", "...", "8", "9"], ", ") == "1, ..., 8, 9";
  }

  // ---------------------------------------------------------------------
  // formatCell

  /**
   * `formatCell(value, n, precision)`: "N/A" for a falsy value; for an
   * array, the elided join of its formatted elements (every element is
   * checked, the elided ones too); for a number, the precision rule; for
   * anything else, its `toString()`.
   */
  method FormatCell(value: JsValue, n: int, precision: Option<nat>, d: Display)
    returns (r: Result<string, FormatError>)
    ensures !Truthy(value) ==> r == Ok("N/A")
    ensures r.Err? ==> value.JsArray?
    ensures value.JsArray? ==>
      (r.Err? <==> exists i :: 0 <= i < |value.elems| && !Formattable(value.elems[i]))
    ensures value.JsArray? && r.Ok? ==> r.value == Elide(FormatAll(value.elems, precision, d), n)
    ensures value == JsArray([]) && n >= 0 ==> r == Ok("")
    ensures value == JsArray([]) && n < 0 ==> r == Ok("[...]")
    ensures Truthy(value) && value.JsNumber? ==> r == Ok(FormatNumber(value.num, precision, d))
    ensures Truthy(value) && value.JsString? ==> r == Ok(value.str)
    ensures value == JsBoolean(true) ==> r == Ok("true")
    ensures Truthy(value) && !(value.JsArray? || value.JsNumber? || value.JsString? || value.JsBoolean?) ==>
      r == Ok(d.valueToString(value))
  {
    if !Truthy(value) {
      return Ok("N/A");
    }
    if value.JsArray? {
      var formattedArray := FormatArray(value.elems, precision, d);
      if formattedArray.Err? {
        return Err(formattedArray.error);
      }
      assert formattedArray.value == FormatAll(value.elems, precision, d);
      if value.elems == [] {
        EmptyArrayElides(n);
      }
      return Ok(Elide(formattedArray.value, n));
    } else if TypeOf(value) == "number" {
      return Ok(FormatNumber(value.num, precision, d));
    } else if value.JsString? {
      return Ok(value.str);
    } else if value.JsBoolean? {
      return Ok("true");
    } else {
      return Ok(d.valueToString(value));
    }
  }
}
