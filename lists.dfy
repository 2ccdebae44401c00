/** List edits the dashboard performs on arrays held in its state. */
module Lists {

  /** JavaScript's `s.filter((_, i) => i !== idx)`: every element except the one at position `idx`. */
  function DropIndex<T>(s: seq<T>, idx: int): seq<T>
  {
    if s == [] then [] else (if idx == 0 then [] else [s[0]]) + DropIndex(s[1..], idx - 1)
  }

  /** Removing position `idx` deletes exactly that element and keeps the others in order; an index outside the list removes nothing. */
  lemma {:induction false} DropIndexRemovesOne<T>(s: seq<T>, idx: int)
    ensures 0 <= idx < |s| ==> DropIndex(s, idx) == s[..idx] + s[idx + 1..]
    ensures !(0 <= idx < |s|) ==> DropIndex(s, idx) == s
  {
    if s != [] {
      DropIndexRemovesOne(s[1..], idx - 1);
      if idx == 0 {
        assert s[idx + 1..] == s[1..];
      } else if 0 < idx < |s| {
        assert s[..idx] == [s[0]] + s[1..][..idx - 1];
        assert s[idx + 1..] == s[1..][idx..];
      } else {
        assert s == [s[0]] + s[1..];
      }
    }
  }
}
