/**
 * Normalising the `etag` header of a part's PUT response: the header value
 * is split on `"` and joined back with nothing in between, which deletes
 * every double quote, not only the surrounding pair.
 */
module ETagHeader {
  import opened Strings

  const Quote: char := '"'

  /** `etag.split('"').join('')`. */
  function Normalize(etag: string): (r: string)
    ensures r == RemoveAll(etag, Quote)
    ensures Quote !in r
  {
    JoinSplitRemovesAll(etag, Quote);
    Join(Split(etag, Quote), [])
  }

  /** Normalising twice is the same as normalising once. */
  lemma NormalizeIdempotent(etag: string)
    ensures Normalize(Normalize(etag)) == Normalize(etag)
  {
    RemoveAllAbsent(Normalize(etag), Quote);
  }

  /** A value without quotes passes through unchanged. */
  lemma NormalizeUnquoted(etag: string)
    requires Quote !in etag
    ensures Normalize(etag) == etag
  {
    RemoveAllAbsent(etag, Quote);
  }

  /** Normalising works character by character: it distributes over concatenation,
      deletes a quote and keeps any other character, so the kept characters stay in order. */
  lemma NormalizeKeepsOrder(a: string, b: string, x: char)
    ensures Normalize(a + b) == Normalize(a) + Normalize(b)
    ensures Normalize([x]) == if x == Quote then [] else [x]
  {
    RemoveAllConcat(a, b, Quote);
    assert [x][1..] == [];
  }

  /** No character other than the quote is lost or duplicated. */
  lemma NormalizeCounts(etag: string, x: char)
    requires x != Quote
    ensures multiset(Normalize(etag))[x] == multiset(etag)[x]
  {
    RemoveAllCounts(etag, Quote, x);
  }

  /** The quoted identifier an S3-style backend returns loses its quotes. */
  lemma NormalizeQuoted(id: string)
    requires Quote !in id
    ensures Normalize([Quote] + id + [Quote]) == id
  {
    RemoveAllConcat([Quote] + id, [Quote], Quote);
    RemoveAllConcat([Quote], id, Quote);
    RemoveAllAbsent(id, Quote);
    assert [Quote][1..] == [];
  }

  /** The example `"abc123"` becomes `abc123`. */
  lemma NormalizeExample()
    ensures Normalize("\"abc123\"") == "abc123"
  {
    assert "\"abc123\"" == [Quote] + "abc123" + [Quote];
    NormalizeQuoted("abc123");
  }

  /** A quote inside the value is deleted as well: `a"b` becomes `ab`. */
  lemma NormalizeInnerQuote()
    ensures Normalize("a\"b") == "ab"
  {
    assert "a\"b" == "a" + [Quote] + "b";
    RemoveAllConcat("a" + [Quote], "b", Quote);
    RemoveAllConcat("a", [Quote], Quote);
    RemoveAllAbsent("a", Quote);
    RemoveAllAbsent("b", Quote);
    assert [Quote][1..] == [];
  }
}
