/**
  Section navigation: the element id `scrollToSection` looks up is its argument with
  the first `#` removed (`String.prototype.replace` with a string pattern replaces
  only the first occurrence).
*/
module Navigation {

  /** The index of the first `#` in `s`, or `|s|` when there is none. */
  function FirstHash(s: string): (k: nat)
    ensures k <= |s|
    ensures '#' !in s[..k]
    ensures k < |s| ==> s[k] == '#'
  {
    if s == [] then 0
    else if s[0] == '#' then 0
    else
      var k := FirstHash(s[1..]);
      assert s[..k + 1] == [s[0]] + s[1..][..k];
      k + 1
  }

  /** `sectionId.replace('#', '')`. */
  function ElementId(sectionId: string): (r: string)
    ensures var k := FirstHash(sectionId);
      if k < |sectionId| then r == sectionId[..k] + sectionId[k + 1..] else r == sectionId
  {
    if sectionId == [] then []
    else if sectionId[0] == '#' then sectionId[1..]
    else
      var tail := sectionId[1..];
      var rest := ElementId(tail);
      var k := FirstHash(tail);
      assert FirstHash(sectionId) == k + 1;
      if k < |tail| then
        DropAfterFirst(sectionId, k);
        [sectionId[0]] + rest
      else
        assert [sectionId[0]] + tail == sectionId;
        [sectionId[0]] + rest
  }

  /** Dropping the character at `k` of the tail is dropping the one at `k + 1` of the whole. */
  lemma DropAfterFirst(s: string, k: nat)
    requires k + 1 < |s|
    ensures [s[0]] + (s[1..][..k] + s[1..][k + 1..]) == s[..k + 1] + s[k + 2..]
  {
    assert s[..k + 1] == [s[0]] + s[1..][..k];
    assert s[k + 2..] == s[1..][k + 1..];
  }

  /** Exactly one character is dropped when the argument holds a `#`, none otherwise. */
  lemma ElementIdLength(sectionId: string)
    ensures '#' in sectionId ==> |ElementId(sectionId)| == |sectionId| - 1
    ensures '#' !in sectionId ==> ElementId(sectionId) == sectionId
  {
    var k := FirstHash(sectionId);
    if k == |sectionId| {
      assert sectionId[..k] == sectionId;
    }
  }

  /** The navigation links pass `#` + a hash-free id; the lookup gets that id back. */
  lemma ElementIdOfAnchor(id: string)
    requires '#' !in id
    ensures ElementId("#" + id) == id
  {
    assert ("#" + id)[1..] == id;
  }

  /** Only the first `#` goes: later ones stay in the id. */
  lemma ElementIdKeepsLaterHashes(id: string)
    requires '#' !in id
    ensures ElementId("##" + id) == "#" + id
  {
    assert ("##" + id)[1..] == "#" + id;
  }
}
