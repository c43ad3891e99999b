/** The page buffers the allocator writes in place, seen as values. */
module PageBuffers {
  import opened Bytes
  import opened Macro
  import opened Store

  /** Eight distinct 255-byte buffers, written in place. */
  ghost predicate ValidPages(pages: seq<array<byte>>) {
    |pages| == STORE_PAGES &&
    (forall k :: 0 <= k < STORE_PAGES ==> pages[k].Length == SECTOR_SIZE) &&
    forall j, k :: 0 <= j < k < STORE_PAGES ==> pages[j] != pages[k]
  }

  ghost function Contents(pages: seq<array<byte>>): Images
    requires ValidPages(pages)
    reads pages
  {
    [pages[0][..], pages[1][..], pages[2][..], pages[3][..], pages[4][..], pages[5][..], pages[6][..], pages[7][..]]
  }

  function Patched(images: Images, k: nat, at: nat, bytes: seq<byte>): Images
  {
    if k < STORE_PAGES then images[k := Splice(images[k], at, bytes)] else images
  }

  lemma PatchedTwice(images: Images, k: nat, at: nat, a: seq<byte>, b: seq<byte>)
    requires k < STORE_PAGES && at + |a| + |b| <= SECTOR_SIZE
    ensures Patched(Patched(images, k, at, a), k, at + |a|, b) == Patched(images, k, at, a + b)
  {
    var s := images[k];
    assert Splice(Splice(s, at, a), at + |a|, b) == Splice(s, at, a + b);
  }

  /** `pages[sector][at:at + len(bytes)] = bytes`. */
  method WriteBytes(pages: seq<array<byte>>, k: nat, at: nat, bytes: seq<byte>)
    requires ValidPages(pages) && k < STORE_PAGES && at + |bytes| <= SECTOR_SIZE
    modifies pages[k]
    ensures Contents(pages) == Patched(old(Contents(pages)), k, at, bytes)
  {
    var page := pages[k];
    for i := 0 to |bytes|
      modifies page
      invariant page[..] == Splice(old(page[..]), at, bytes[..i])
    {
      page[at + i] := bytes[i];
      assert bytes[..i + 1] == bytes[..i] + [bytes[i]];
    }
    assert bytes[..|bytes|] == bytes;
    assert forall j :: 0 <= j < STORE_PAGES && j != k ==> pages[j][..] == old(pages[j][..]);
  }

  /** Write instructions one after the other and return where they end. */
  method WriteTokens(pages: seq<array<byte>>, k: nat, at: nat, tokens: seq<Token>) returns (end: nat)
    requires ValidPages(pages) && k < STORE_PAGES && at + |Flatten(tokens)| <= SECTOR_SIZE
    modifies pages[k]
    ensures end == at + |Flatten(tokens)|
    ensures Contents(pages) == Patched(old(Contents(pages)), k, at, Flatten(tokens))
  {
    end := at;
    assert Splice(Contents(pages)[k], at, []) == Contents(pages)[k];
    for i := 0 to |tokens|
      modifies pages[k]
      invariant end == at + |Flatten(tokens[..i])| && end + |Flatten(tokens[i..])| == at + |Flatten(tokens)|
      invariant Contents(pages) == Patched(old(Contents(pages)), k, at, Flatten(tokens[..i]))
    {
      FlattenConcat(tokens[..i], [tokens[i]]);
      assert tokens[..i + 1] == tokens[..i] + [tokens[i]];
      assert tokens[i..][1..] == tokens[i + 1..];
      assert Flatten([tokens[i]]) == tokens[i] + Flatten([]) == tokens[i];
      WriteBytes(pages, k, end, tokens[i]);
      PatchedTwice(old(Contents(pages)), k, at, Flatten(tokens[..i]), tokens[i]);
      end := end + |tokens[i]|;
    }
    assert tokens[..|tokens|] == tokens;
  }
}
