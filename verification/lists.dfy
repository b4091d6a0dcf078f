/** Sequence operations the client writes with `Array.prototype.filter`
    on an index. */
module Lists {

  /** `s.filter((_, i) => i !== index)`: every element whose position is not
      `index`, in order; an `index` outside the sequence removes nothing. */
  function RemoveAt<T>(s: seq<T>, index: int): (r: seq<T>)
    ensures 0 <= index < |s| ==> r == s[..index] + s[index + 1..]
    ensures !(0 <= index < |s|) ==> r == s
    decreases |s|
  {
    if |s| == 0 then []
    else (if index == 0 then [] else [s[0]]) + RemoveAt(s[1..], index - 1)
  }
}
