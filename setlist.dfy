/** The working collection of songs (`setlist` in script.js): an ordered list
    that the page appends to and removes from in place. */
module Setlist {

  /** One catalog entry. Identity in the setlist is positional: the same song
      may appear several times. */
  datatype Song = Song(id: string, title: string, imageUrl: string)

  /** The index at which `Array.prototype.splice(index, …)` starts on a list of
      length `len`: a negative index counts from the end, and both ends clamp. */
  function SpliceStart(len: nat, index: int): (start: nat)
    ensures start <= len
    ensures 0 <= index <= len ==> start == index
    ensures -(len as int) <= index < 0 ==> start == len + index
  {
    if index < 0 then (if len + index < 0 then 0 else len + index)
    else if index > len then len
    else index
  }

  /** The list that `splice(index, 1)` leaves behind. */
  function SpliceOne<T>(s: seq<T>, index: int): seq<T>
  {
    var start := SpliceStart(|s|, index);
    if start < |s| then s[..start] + s[start + 1..] else s
  }

  class SongList {
    var songs: seq<Song>

    constructor ()
      ensures songs == []
    {
      songs := [];
    }

    /** `addToSetlist`: appends; duplicates are not checked. */
    method Add(song: Song)
      modifies this
      ensures songs == old(songs) + [song]
    {
      songs := songs + [song];
    }

    /** `removeFromSetlist`: `setlist.splice(index, 1)`. */
    method Remove(index: int)
      modifies this
      ensures songs == SpliceOne(old(songs), index)
    {
      songs := SpliceOne(songs, index);
    }
  }

  /** Adding a song grows the list by one, puts the song last and leaves every
      earlier entry where it was, whether or not the song is already present. */
  lemma AddAppends(s: seq<Song>, song: Song)
    ensures |s + [song]| == |s| + 1
    ensures (s + [song])[|s|] == song
    ensures forall k :: 0 <= k < |s| ==> (s + [song])[k] == s[k]
    ensures song in s ==> multiset(s + [song])[song] == multiset(s)[song] + 1
  {
  }

  /** Removing an in-range index deletes exactly that entry: the list shrinks by
      one, entries before it keep their index, entries after it move down by one,
      and the multiset of songs loses exactly one copy of the removed entry. */
  lemma RemoveInRange<T>(s: seq<T>, i: int)
    requires 0 <= i < |s|
    ensures |SpliceOne(s, i)| == |s| - 1
    ensures forall k :: 0 <= k < i ==> SpliceOne(s, i)[k] == s[k]
    ensures forall k :: i <= k < |s| - 1 ==> SpliceOne(s, i)[k] == s[k + 1]
    ensures multiset(SpliceOne(s, i)) + multiset{s[i]} == multiset(s)
  {
    var r := SpliceOne(s, i);
    assert r == s[..i] + s[i + 1..];
    assert s == s[..i] + [s[i]] + s[i + 1..];
  }

  /** An index at or past the end removes nothing. */
  lemma RemovePastEnd<T>(s: seq<T>, i: int)
    requires i >= |s|
    ensures SpliceOne(s, i) == s
  {
  }

  /** A negative index counts from the end: `-1` removes the last entry, and an
      index before the start removes the first entry of a non-empty list. */
  lemma RemoveNegative<T>(s: seq<T>, i: int)
    requires i < 0 && s != []
    ensures -|s| <= i ==> SpliceOne(s, i) == s[..|s| + i] + s[|s| + i + 1..]
    ensures i < -|s| ==> SpliceOne(s, i) == s[1..]
  {
  }

  /** Whatever the index, the entries that remain keep their relative order:
      the result is the original list with at most one position cut out. */
  lemma RemoveKeepsOrder<T>(s: seq<T>, i: int)
    ensures SpliceOne(s, i) == s || exists j :: 0 <= j < |s| && SpliceOne(s, i) == s[..j] + s[j + 1..]
    ensures SpliceOne(s, i) == s <==> SpliceStart(|s|, i) == |s|
  {
    var start := SpliceStart(|s|, i);
    if start < |s| {
      assert SpliceOne(s, i) == s[..start] + s[start + 1..];
      assert |SpliceOne(s, i)| < |s|;
    }
  }

  /** Removing the entry just added, by its index or by `-1`, restores the list. */
  lemma AddThenRemove<T>(s: seq<T>, song: T)
    ensures SpliceOne(s + [song], |s|) == s
    ensures SpliceOne(s + [song], -1) == s
  {
    assert (s + [song])[..|s|] == s;
  }
}
