/**
 * `buildUrl` of shared/routes.ts: fill the `:name` placeholders of a path
 * pattern from a parameter record. For each entry, in the record's
 * enumeration order, if `:key` occurs in the url built so far, its first
 * occurrence is replaced by `String(value)`, with the replacement-pattern
 * expansion `String.prototype.replace` performs on its second argument.
 */
module Url {
  import opened Wrappers
  import ApiTable

  /** A parameter value: `string | number` (numbers are modelled as integers). */
  datatype ParamValue = Str(text: string) | Num(n: int)

  // ---------------------------------------------------------------------
  // Decimal numerals: `String(n)` for an integer, and `Number(s)` for a digit string

  predicate IsDigit(c: char) {
    '0' <= c <= '9'
  }

  function DigitChar(d: nat): (c: char)
    requires d < 10
    ensures IsDigit(c) && c as int - '0' as int == d
  {
    (d + '0' as int) as char
  }

  /** The decimal digits of `n`, without leading zeros. */
  function NatDecimal(n: nat): (s: string)
    ensures |s| >= 1 && forall i :: 0 <= i < |s| ==> IsDigit(s[i])
    ensures |s| > 1 ==> s[0] != '0'
  {
    if n < 10 then [DigitChar(n)] else NatDecimal(n / 10) + [DigitChar(n % 10)]
  }

  /** `String(n)` for an integer `n`. */
  function Decimal(n: int): (s: string)
    ensures '$' !in s
  {
    if n < 0 then "-" + NatDecimal(-n) else NatDecimal(n)
  }

  /**
   * `Number(s)` for a string of decimal digits, exactly: JavaScript rounds
   * values above 2^53 to the nearest double, which this does not model. It
   * is zero exactly when every digit is `0`, in both.
   */
  function DigitsValue(s: string): (v: nat)
    requires forall i :: 0 <= i < |s| ==> IsDigit(s[i])
    ensures v == 0 <==> forall i :: 0 <= i < |s| ==> s[i] == '0'
  {
    if s == [] then 0
    else
      assert IsDigit(s[|s| - 1]);
      DigitsValue(s[..|s| - 1]) * 10 + (s[|s| - 1] as int - '0' as int)
  }

  /** Reading back the digits of a number gives the number: `Number(String(n)) == n`. */
  lemma {:induction false} DecimalRoundTrip(n: nat)
    ensures DigitsValue(NatDecimal(n)) == n
  {
    if n >= 10 {
      var s := NatDecimal(n);
      assert s[..|s| - 1] == NatDecimal(n / 10);
      DecimalRoundTrip(n / 10);
    }
  }

  /**
   * `String(value)`: a string is kept as it is; a number becomes a non-empty
   * `$`-free numeral, for a natural number its digits without leading zeros.
   */
  function ToStr(v: ParamValue): (s: string)
    ensures v.Str? ==> s == v.text
    ensures v.Num? ==> |s| >= 1 && '$' !in s
    ensures v.Num? && v.n >= 0 ==> s == NatDecimal(v.n)
  {
    match v
    case Str(t) => t
    case Num(n) => Decimal(n)
  }

  // ---------------------------------------------------------------------
  // Substring search and first-occurrence replacement

  predicate OccursAt(s: string, pat: string, i: nat) {
    i + |pat| <= |s| && s[i..i + |pat|] == pat
  }

  /** `s.includes(pat)`. */
  predicate Includes(s: string, pat: string) {
    exists i: nat | i <= |s| :: OccursAt(s, pat, i)
  }

  /** The first occurrence of `pat` in `s` at or after `from`. */
  function IndexFrom(s: string, pat: string, from: nat): (r: Option<nat>)
    ensures r.Some? ==> from <= r.value && OccursAt(s, pat, r.value)
    ensures r.Some? ==> forall j: nat :: from <= j < r.value ==> !OccursAt(s, pat, j)
    ensures r.None? ==> forall j: nat :: from <= j ==> !OccursAt(s, pat, j)
    decreases |s| - from
  {
    if from + |pat| > |s| then None
    else if OccursAt(s, pat, from) then Some(from)
    else IndexFrom(s, pat, from + 1)
  }

  /** `s.indexOf(pat)`: the first occurrence. */
  function IndexOf(s: string, pat: string): Option<nat> {
    IndexFrom(s, pat, 0)
  }

  lemma IncludesIffFound(s: string, pat: string)
    ensures Includes(s, pat) <==> IndexOf(s, pat).Some?
  {
    if IndexOf(s, pat).Some? {
      var i := IndexOf(s, pat).value;
      assert i <= |s| && OccursAt(s, pat, i);
    }
  }

  /** An occurrence with none before it is the one `indexOf` finds. */
  lemma FirstOccurrence(s: string, pat: string, i: nat)
    requires OccursAt(s, pat, i)
    requires forall j: nat :: j < i ==> !OccursAt(s, pat, j)
    ensures IndexOf(s, pat) == Some(i)
  {
  }

  /**
   * The replacement string as `replace` uses it: `$$` inserts `$`, `$&` the
   * matched text, `` $` `` the text before the match and `$'` the text after
   * it; any other `$` is literal (a string pattern has no capture groups).
   */
  function Expand(rep: string, matched: string, before: string, after: string): (r: string)

    ensures forall c :: c in r ==> c in rep || c in matched || c in before || c in after
    decreases |rep|
  {
    if rep == [] then []
    else if rep[0] == '$' && |rep| >= 2 && rep[1] in "$&`'" then
      (if rep[1] == '$' then "$" else if rep[1] == '&' then matched else if rep[1] == '`' then before else after)
        + Expand(rep[2..], matched, before, after)
    else [rep[0]] + Expand(rep[1..], matched, before, after)
  }

  /** A replacement without `$` is inserted literally. */
  lemma {:induction false} ExpandLiteral(rep: string, matched: string, before: string, after: string)
    requires '$' !in rep
    ensures Expand(rep, matched, before, after) == rep
    decreases |rep|
  {
    if rep != [] {
      assert rep == [rep[0]] + rep[1..];
      ExpandLiteral(rep[1..], matched, before, after);
    }
  }

  /**
   * `s.replace(pat, rep)` with a string pattern: only the first occurrence is
   * replaced; the text before and after it is kept, and without a match the
   * string is unchanged.
   */
  function ReplaceFirst(s: string, pat: string, rep: string): (r: string)
    ensures IndexOf(s, pat).None? ==> r == s
    ensures IndexOf(s, pat).Some? ==>
      var i := IndexOf(s, pat).value; var tail := s[i + |pat|..];
      |r| >= i + |tail| && r[..i] == s[..i] && r[|r| - |tail|..] == tail
  {
    match IndexOf(s, pat)
    case None => s
    case Some(i) => s[..i] + Expand(rep, pat, s[..i], s[i + |pat|..]) + s[i + |pat|..]
  }

  // ---------------------------------------------------------------------
  // buildUrl

  /** One iteration of the loop, for the entry `(key, value)`: the url changes only where `:key` occurs. */
  function Step(url: string, entry: (string, ParamValue)): (r: string)
    ensures !Includes(url, ":" + entry.0) ==> r == url
  {
    var pat := ":" + entry.0;
    if Includes(url, pat) then ReplaceFirst(url, pat, ToStr(entry.1)) else url
  }

  /**
   * The entries applied in order, each to the url the previous ones produced.
   * When no entry's placeholder occurs in the url, nothing changes.
   */
  function ApplyAll(url: string, entries: seq<(string, ParamValue)>): (r: string)
    ensures entries == [] ==> r == url
  {
    if entries == [] then url else Step(ApplyAll(url, entries[..|entries| - 1]), entries[|entries| - 1])
  }

  /** `params` is the record as `Object.entries` enumerates it; `None` when no record is passed. */
  method BuildUrl(path: string, params: Option<seq<(string, ParamValue)>>) returns (url: string)
    ensures params.None? ==> url == path
    ensures params.Some? ==> url == ApplyAll(path, params.value)
  {
    url := path;
    if params.Some? {
      var entries := params.value;
      for i := 0 to |entries|
        invariant url == ApplyAll(path, entries[..i])
      {
        var (key, value) := entries[i];
        var pat := ":" + key;
        if Includes(url, pat) {
          url := ReplaceFirst(url, pat, ToStr(value));
        }
        assert entries[..i + 1][..i] == entries[..i];
      }
      assert entries[..|entries|] == entries;
    }
  }

  // ---------------------------------------------------------------------
  // Properties of buildUrl

  /** The first entry is applied to the path itself, and the rest to its result. */
  lemma {:induction false} ApplyAllFirst(url: string, e: (string, ParamValue), rest: seq<(string, ParamValue)>)
    ensures ApplyAll(url, [e] + rest) == ApplyAll(Step(url, e), rest)
    decreases |rest|
  {
    if rest == [] {
      assert ApplyAll(url, [e]) == Step(ApplyAll(url, []), e);
    } else {
      var last := rest[|rest| - 1];
      var init := rest[..|rest| - 1];
      assert ([e] + rest)[..|[e] + rest| - 1] == [e] + init;
      ApplyAllFirst(url, e, init);
    }
  }

  /** A record none of whose placeholders occurs in the path leaves the path as it is. */
  lemma {:induction false} UnmatchedRecordKeepsUrl(url: string, entries: seq<(string, ParamValue)>)
    requires forall k :: 0 <= k < |entries| ==> IndexOf(url, ":" + entries[k].0).None?
    ensures ApplyAll(url, entries) == url
  {
    if entries != [] {
      var last := entries[|entries| - 1];
      UnmatchedRecordKeepsUrl(url, entries[..|entries| - 1]);
      AbsentKeyLeavesUrl(url, last.0, last.1);
    }
  }

  /** An entry whose `:key` does not occur (as a substring) leaves the url unchanged. */
  lemma AbsentKeyLeavesUrl(url: string, key: string, v: ParamValue)
    requires IndexOf(url, ":" + key).None?
    ensures Step(url, (key, v)) == url
  {
    IncludesIffFound(url, ":" + key);
  }

  /** With a `$`-free value, an entry replaces the first occurrence of `:key`, and only that one, by the value. */
  lemma StepReplacesFirst(url: string, key: string, v: ParamValue)
    requires '$' !in ToStr(v)
    requires IndexOf(url, ":" + key).Some?
    ensures var i := IndexOf(url, ":" + key).value;
      && OccursAt(url, ":" + key, i)
      && (forall j: nat :: j < i ==> !OccursAt(url, ":" + key, j))
      && Step(url, (key, v)) == url[..i] + ToStr(v) + url[i + |key| + 1..]
  {
    var pat := ":" + key;
    var i := IndexOf(url, pat).value;
    var before, after := url[..i], url[i + |pat|..];
    assert Includes(url, pat) by {
      IncludesIffFound(url, pat);
    }
    assert Expand(ToStr(v), pat, before, after) == ToStr(v) by {
      ExpandLiteral(ToStr(v), pat, before, after);
    }
    assert ReplaceFirst(url, pat, ToStr(v)) == before + Expand(ToStr(v), pat, before, after) + after;
    assert after == url[i + |key| + 1..];
  }

  /** After a colon-free prefix, the placeholder is the first occurrence of `:key`. */
  lemma PlaceholderAfterPrefix(prefix: string, key: string, suffix: string)
    requires ':' !in prefix
    ensures var s := prefix + ":" + key + suffix;
      && IndexOf(s, ":" + key) == Some(|prefix|)
      && s[..|prefix|] == prefix && s[|prefix| + |key| + 1..] == suffix
  {
    var s := prefix + ":" + key + suffix;
    var pat := ":" + key;
    var i := |prefix|;
    assert s[i..i + |pat|] == pat;
    forall j: nat | j < i ensures !OccursAt(s, pat, j) {
      assert s[j] == prefix[j] != ':';
      assert s[j..j + |pat|][0] == s[j] != pat[0];
    }
    FirstOccurrence(s, pat, i);
    assert s[..i] == prefix;
    assert s[i + |key| + 1..] == suffix;
  }

  /** A single placeholder after a colon-free prefix is replaced by the value, the suffix kept. */
  lemma SinglePlaceholder(prefix: string, key: string, suffix: string, v: ParamValue)
    requires ':' !in prefix && '$' !in ToStr(v)
    ensures ApplyAll(prefix + ":" + key + suffix, [(key, v)]) == prefix + ToStr(v) + suffix
  {
    var s := prefix + ":" + key + suffix;
    PlaceholderAfterPrefix(prefix, key, suffix);
    StepReplacesFirst(s, key, v);
    assert ApplyAll(s, [(key, v)]) == Step(ApplyAll(s, []), (key, v));
  }

  /** The client's delete url for a medication: the id's digits after the prefix, read back as the id. */
  lemma MedicationUrl(id: nat)
    ensures ApplyAll(ApiTable.DeleteMedication.path, [("id", Num(id))]) == "/api/medications/" + NatDecimal(id)
    ensures DigitsValue(NatDecimal(id)) == id
  {
    assert ApiTable.DeleteMedication.path == "/api/medications/" + ":" + "id" + "";
    SinglePlaceholder("/api/medications/", "id", "", Num(id));
    DecimalRoundTrip(id);
  }

  /** The block-toggle url keeps its `/block` suffix. */
  lemma ToggleBlockUrl(id: nat)
    ensures ApplyAll(ApiTable.ToggleBlock.path, [("id", Num(id))]) == "/api/admin/users/" + NatDecimal(id) + "/block"
  {
    assert ApiTable.ToggleBlock.path == "/api/admin/users/" + ":" + "id" + "/block";
    SinglePlaceholder("/api/admin/users/", "id", "/block", Num(id));
  }

  /**
   * The test is a substring test, so `:id` also matches the start of `:idx`;
   * and a second occurrence of the same placeholder is left in place.
   */
  lemma PlaceholderEdgeCases(prefix: string, middle: string, n: nat)
    requires ':' !in prefix
    ensures ApplyAll(prefix + ":" + "id" + "x", [("id", Num(n))]) == prefix + NatDecimal(n) + "x"
    ensures ApplyAll(prefix + ":" + "id" + (middle + ":id"), [("id", Num(n))]) == prefix + NatDecimal(n) + (middle + ":id")
  {
    SinglePlaceholder(prefix, "id", "x", Num(n));
    SinglePlaceholder(prefix, "id", middle + ":id", Num(n));
  }

  /**
   * A string value is not inserted literally when it holds a replacement
   * pattern: the value `$&` expands to the matched `:key`, so the url keeps
   * its placeholder.
   */
  lemma DollarPatternInValue(prefix: string, key: string, suffix: string)
    requires ':' !in prefix
    ensures ApplyAll(prefix + ":" + key + suffix, [(key, Str("$&"))]) == prefix + ":" + key + suffix
  {
    var s := prefix + ":" + key + suffix;
    var pat := ":" + key;
    var i := |prefix|;
    var e := (key, Str("$&"));
    assert IndexOf(s, pat) == Some(i) && s[..i] == prefix && s[i + |pat|..] == suffix && Includes(s, pat) by {
      PlaceholderAfterPrefix(prefix, key, suffix);
      IncludesIffFound(s, pat);
    }
    assert Expand("$&", pat, prefix, suffix) == pat by {
      assert Expand("$&", pat, prefix, suffix) == pat + Expand("", pat, prefix, suffix);
    }
    assert ReplaceFirst(s, pat, "$&") == s by {
      assert ReplaceFirst(s, pat, "$&") == prefix + Expand("$&", pat, prefix, suffix) + suffix;
      assert prefix + pat == prefix + ":" + key;
    }
    assert Step(s, e) == s by {
      assert ToStr(e.1) == "$&" && ":" + e.0 == pat;
    }
    assert ApplyAll(s, [e]) == Step(ApplyAll(s, []), e);
  }
}
