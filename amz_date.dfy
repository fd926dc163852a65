/**
 * The `X-Amz-Date` header value: an ECMAScript `Date.prototype.toISOString()`
 * value (`YYYY-MM-DDTHH:mm:ss.sssZ`) is turned into the ISO 8601 basic format
 * `YYYYMMDDTHHmmssZ` (ISO 8601:2004 section 4.3.2) by a chain of splits and joins:
 * delete every `:`, keep what precedes the first `.`, append `Z`, delete every `-`.
 * The clock reading is a parameter.
 */
module AmzDate {
  import opened Strings

  /** `(iso.split(':').join('').split('.')[0] + 'Z').split('-').join('')`. */
  function FromIsoString(iso: string): string
  {
    var noColons := Join(Split(iso, ':'), []);
    var seconds := Split(noColons, '.')[0];
    Join(Split(seconds + "Z", '-'), [])
  }

  /** For any input the header is the text before the first `.`, with every `:` and `-`
      deleted, followed by `Z`. */
  lemma FromIsoStringMeaning(iso: string)
    ensures FromIsoString(iso) == RemoveAll(RemoveAll(Before(iso, '.'), ':'), '-') + "Z"
  {
    var noColons := Join(Split(iso, ':'), []);
    JoinSplitRemovesAll(iso, ':');
    SplitFirstIsBefore(noColons, '.');
    BeforeRemoveAllCommute(iso, '.', ':');
    var seconds := Split(noColons, '.')[0];
    JoinSplitRemovesAll(seconds + "Z", '-');
    RemoveAllConcat(seconds, "Z", '-');
  }

  /** Whatever the input, the header ends in `Z` and contains no `-`, `:` or `.`. */
  lemma FromIsoStringCharacters(iso: string)
    ensures |FromIsoString(iso)| >= 1 && FromIsoString(iso)[|FromIsoString(iso)| - 1] == 'Z'
    ensures '-' !in FromIsoString(iso) && ':' !in FromIsoString(iso) && '.' !in FromIsoString(iso)
  {
    FromIsoStringMeaning(iso);
    var seconds := Before(iso, '.');
    var noColons := RemoveAll(seconds, ':');
    RemoveAllKeepsAbsent(seconds, ':', '.');
    RemoveAllKeepsAbsent(noColons, '-', '.');
    RemoveAllKeepsAbsent(noColons, '-', ':');
  }

  predicate IsDigit(ch: char) {
    '0' <= ch <= '9'
  }

  /** What `toISOString()` returns for a year between 0 and 9999: `YYYY-MM-DDTHH:mm:ss.sssZ`,
      a digit at every position but the seven separators. */
  predicate WellFormedIso(iso: string) {
    && |iso| == 24
    && iso[4] == '-' && iso[7] == '-' && iso[10] == 'T' && iso[13] == ':' && iso[16] == ':'
    && iso[19] == '.' && iso[23] == 'Z'
    && forall i :: 0 <= i < 24 && i != 4 && i != 7 && i != 10 && i != 13 && i != 16 && i != 19 && i != 23
         ==> IsDigit(iso[i])
  }

  /** The ISO 8601 basic format of a UTC date and time, `YYYYMMDDTHHmmssZ`: a digit at every
      position but the `T` and the `Z`. */
  predicate IsBasicFormat(stamp: string) {
    && |stamp| == 16
    && stamp[8] == 'T' && stamp[15] == 'Z'
    && forall i :: 0 <= i < 16 && i != 8 && i != 15 ==> IsDigit(stamp[i])
  }

  lemma RemoveAllSingle(x: char, c: char)
    ensures RemoveAll([x], c) == if x == c then [] else [x]
  {
    assert [x][1..] == [];
  }

  /** Deleting an occurrence of `c` that separates two `c`-free pieces. */
  lemma DropSeparator(a: string, b: string, c: char)
    requires RemoveAll(a, c) == a && RemoveAll(b, c) == b
    ensures RemoveAll(a + [c] + b, c) == a + b
  {
    RemoveAllConcat(a + [c], b, c);
    RemoveAllConcat(a, [c], c);
    RemoveAllSingle(c, c);
    assert RemoveAll(a + [c], c) == a;
  }

  /** Deleting the two occurrences of `c` that separate three `c`-free pieces. */
  lemma DropSeparators(a: string, b: string, d: string, c: char)
    requires c !in a && c !in b && c !in d
    ensures RemoveAll(a + [c] + b + [c] + d, c) == a + b + d
  {
    RemoveAllAbsent(a, c);
    RemoveAllAbsent(b, c);
    RemoveAllAbsent(d, c);
    DropSeparator(a, b, c);
    var ab := a + [c] + b;
    RemoveAllConcat(ab, [c] + d, c);
    assert ab + [c] + d == ab + ([c] + d);
    RemoveAllConcat([c], d, c);
    RemoveAllSingle(c, c);
    assert RemoveAll([c] + d, c) == d;
  }

  /** The milliseconds start at the only `.` of a well-formed value. */
  lemma BeforeDotWellFormed(iso: string)
    requires WellFormedIso(iso)
    ensures Before(iso, '.') == iso[..19]
  {
    assert forall i :: 0 <= i < 19 ==> iso[..19][i] != '.';
    BeforeUnique(iso, '.', iso[..19]);
  }

  /** Deleting the two `:` of the time of day. */
  lemma DropColonsWellFormed(iso: string)
    requires WellFormedIso(iso)
    ensures RemoveAll(iso[..19], ':') == iso[..13] + iso[14..16] + iso[17..19]
  {
    assert iso[..19] == iso[..13] + [':'] + iso[14..16] + [':'] + iso[17..19];
    assert forall i :: 0 <= i < 13 ==> iso[..13][i] != ':';
    assert forall i :: 0 <= i < 2 ==> iso[14..16][i] != ':' && iso[17..19][i] != ':';
    DropSeparators(iso[..13], iso[14..16], iso[17..19], ':');
  }

  /** The digits of a well-formed value, in order, with `T` and `Z` in their places. */
  function Compact(iso: string): string
    requires |iso| == 24
  {
    iso[0..4] + iso[5..7] + iso[8..10] + "T" + iso[11..13] + iso[14..16] + iso[17..19] + "Z"
  }

  lemma CompactIsBasicFormat(iso: string)
    requires WellFormedIso(iso)
    ensures IsBasicFormat(Compact(iso))
  {
    var stamp := Compact(iso);
    assert forall i :: 0 <= i < 4 ==> stamp[i] == iso[i];
    assert forall i :: 4 <= i < 6 ==> stamp[i] == iso[i + 1];
    assert forall i :: 6 <= i < 8 ==> stamp[i] == iso[i + 2];
    assert forall i :: 9 <= i < 11 ==> stamp[i] == iso[i + 2];
    assert forall i :: 11 <= i < 13 ==> stamp[i] == iso[i + 3];
    assert forall i :: 13 <= i < 15 ==> stamp[i] == iso[i + 4];
  }

  /** Deleting the two `-` of the calendar date leaves the compact form. */
  lemma DropDashesWellFormed(iso: string)
    requires WellFormedIso(iso)
    ensures RemoveAll(iso[..13] + iso[14..16] + iso[17..19], '-') + "Z" == Compact(iso)
  {
    var rest := iso[8..13] + iso[14..16] + iso[17..19];
    assert iso[..13] + iso[14..16] + iso[17..19] == iso[0..4] + ['-'] + iso[5..7] + ['-'] + rest;
    assert forall i :: 0 <= i < 4 ==> iso[0..4][i] != '-';
    assert forall i :: 0 <= i < 2 ==> iso[5..7][i] != '-';
    assert forall i :: 0 <= i < 9 ==> rest[i] != '-';
    DropSeparators(iso[0..4], iso[5..7], rest, '-');
    assert iso[8..13] == iso[8..10] + "T" + iso[11..13];
  }

  /** For a well-formed `toISOString()` value the header keeps the same digits in the same
      order and drops the milliseconds: it is exactly the 16-character basic format. */
  lemma FromIsoStringWellFormed(iso: string)
    requires WellFormedIso(iso)
    ensures FromIsoString(iso) == iso[0..4] + iso[5..7] + iso[8..10] + "T" + iso[11..13] + iso[14..16] + iso[17..19] + "Z"
    ensures IsBasicFormat(FromIsoString(iso))
  {
    FromIsoStringMeaning(iso);
    BeforeDotWellFormed(iso);
    DropColonsWellFormed(iso);
    DropDashesWellFormed(iso);
    CompactIsBasicFormat(iso);
  }
}
