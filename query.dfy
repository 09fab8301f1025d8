/** The URL string the component passes to `fetch` for the character
    endpoint. The search term and the filter values are concatenated into it
    as they are; the component encodes nothing. */
module Query {
  import opened Wrappers
  import opened Filters

  /** The endpoint with the always-present name parameter. */
  const Base := "https://rickandmortyapi.com/api/character/?name="

  /** The segment of a filter (`&key=` and its value), or nothing when the
      filter is empty. */
  function Param(segment: string, value: string): string
  {
    if value == "" then "" else segment + value
  }

  /** The URL built from a filter snapshot: the base, the raw search term, then
      the status, species and gender segments in that order. */
  function RequestUrl(f: FilterState): string
  {
    Base + f.searchTerm + Param("&status=", f.status) + Param("&species=", f.species) + Param("&gender=", f.gender)
  }

  /** The `key=value` pair a non-empty filter contributes, as a list of at most
      one; `key` includes the `=`. */
  function Pair(key: string, value: string): seq<string>
  {
    if value == "" then [] else [key + value]
  }

  /** The query pairs after the name, in the order the URL carries them. */
  function Pairs(f: FilterState): seq<string>
  {
    Pair("status=", f.status) + Pair("species=", f.species) + Pair("gender=", f.gender)
  }

  /** Every pair, each preceded by `&`. */
  function Prefixed(ps: seq<string>): string
  {
    if ps == [] then "" else "&" + ps[0] + Prefixed(ps[1..])
  }

  /** The pieces of `s` between the `&` separators (always at least one). */
  function Fields(s: string): (r: seq<string>)
    ensures |r| >= 1
  {
    if s == [] then [""]
    else if s[0] == '&' then [""] + Fields(s[1..])
    else
      var rest := Fields(s[1..]);
      [[s[0]] + rest[0]] + rest[1..]
  }

  /** No field holds the separator, so the query can be split back apart. */
  predicate SeparatorFree(f: FilterState)
  {
    '&' !in f.searchTerm && '&' !in f.status && '&' !in f.species && '&' !in f.gender
  }

  /** Takes the value of `key` from the head of the pairs when it is there. */
  function TakeValue(key: string, ps: seq<string>): (string, seq<string>)
  {
    if |ps| > 0 && key <= ps[0] && |ps[0]| > |key| then (ps[0][|key|..], ps[1..]) else ("", ps)
  }

  /** Reads a filter snapshot back out of a request URL: the inverse of RequestUrl
      on separator-free snapshots. */
  function ParseUrl(url: string): Option<FilterState>
  {
    if Base <= url then ParseFields(Fields(url[|Base|..])) else None
  }

  /** Reads the name and then the optional status, species and gender pairs, in
      that order, from the pieces of a query; anything else left over fails. */
  function ParseFields(fields: seq<string>): Option<FilterState>
    requires |fields| >= 1
  {
    var (status, afterStatus) := TakeValue("status=", fields[1..]);
    var (species, afterSpecies) := TakeValue("species=", afterStatus);
    var (gender, afterGender) := TakeValue("gender=", afterSpecies);
    if afterGender == [] then Some(FilterState(fields[0], status, species, gender)) else None
  }

  /** The URL begins with the endpoint, `?name=` and the search term verbatim. */
  lemma UrlStartsWithName(f: FilterState)
    ensures Base + f.searchTerm <= RequestUrl(f)
    ensures RequestUrl(f)[..|Base| + |f.searchTerm|] == Base + f.searchTerm
  {
  }

  /** With no filter selected the URL is the base and the search term and nothing
      else; each selected filter adds `&key=` and its value. */
  lemma UrlLength(f: FilterState)
    ensures f.status == f.species == f.gender == "" ==> RequestUrl(f) == Base + f.searchTerm
    ensures |RequestUrl(f)| == |Base| + |f.searchTerm|
      + (if f.status == "" then 0 else |"&status="| + |f.status|)
      + (if f.species == "" then 0 else |"&species="| + |f.species|)
      + (if f.gender == "" then 0 else |"&gender="| + |f.gender|)
  {
  }

  lemma {:induction false} PrefixedAppend(a: seq<string>, b: seq<string>)
    ensures Prefixed(a + b) == Prefixed(a) + Prefixed(b)
    decreases |a|
  {
    if a == [] {
      assert a + b == b;
    } else {
      assert (a + b)[1..] == a[1..] + b;
      PrefixedAppend(a[1..], b);
    }
  }

  /** The three segments are `&` followed by their pair's key. */
  lemma SegmentSpelling()
    ensures "&status=" == "&" + "status="
    ensures "&species=" == "&" + "species="
    ensures "&gender=" == "&" + "gender="
  {
  }

  lemma PrefixedPair(key: string, value: string)
    ensures Prefixed(Pair(key, value)) == Param("&" + key, value)
  {
    if value != "" {
      assert Prefixed(Pair(key, value)) == "&" + (key + value) + "";
    }
  }

  /** The query after the base is the search term followed by the pairs. */
  lemma QueryIsSearchAndPairs(f: FilterState)
    ensures RequestUrl(f) == Base + f.searchTerm + Prefixed(Pairs(f))
  {
    SegmentSpelling();
    PrefixedPair("status=", f.status);
    PrefixedPair("species=", f.species);
    PrefixedPair("gender=", f.gender);
    PrefixedAppend(Pair("status=", f.status), Pair("species=", f.species));
    PrefixedAppend(Pair("status=", f.status) + Pair("species=", f.species), Pair("gender=", f.gender));
  }

  lemma {:induction false} FieldsOfSeparated(a: string, b: string)
    requires '&' !in a
    ensures Fields(a + "&" + b) == [a] + Fields(b)
    decreases |a|
  {
    if a == [] {
      assert a + "&" + b == "&" + b;
    } else {
      assert (a + "&" + b)[1..] == a[1..] + "&" + b;
      FieldsOfSeparated(a[1..], b);
      assert [a[0]] + a[1..] == a;
    }
  }

  lemma {:induction false} FieldsOfPlain(a: string)
    requires '&' !in a
    ensures Fields(a) == [a]
    decreases |a|
  {
    if a != [] {
      FieldsOfPlain(a[1..]);
      assert [a[0]] + a[1..] == a;
    }
  }

  /** Splitting a joined list gives the list back when no piece holds `&`. */
  lemma {:induction false} FieldsOfJoin(first: string, ps: seq<string>)
    requires '&' !in first
    requires forall i :: 0 <= i < |ps| ==> '&' !in ps[i]
    ensures Fields(first + Prefixed(ps)) == [first] + ps
    decreases |ps|
  {
    if ps == [] {
      assert first + Prefixed(ps) == first;
      FieldsOfPlain(first);
    } else {
      assert first + Prefixed(ps) == first + "&" + (ps[0] + Prefixed(ps[1..]));
      FieldsOfSeparated(first, ps[0] + Prefixed(ps[1..]));
      FieldsOfJoin(ps[0], ps[1..]);
      assert [ps[0]] + ps[1..] == ps;
    }
  }

  /** Joining the split pieces with `&` gives the string back, whatever it holds. */
  lemma {:induction false} JoinOfFields(s: string)
    ensures Fields(s)[0] + Prefixed(Fields(s)[1..]) == s
    decreases |s|
  {
    if s != [] {
      JoinOfFields(s[1..]);
      var rest := Fields(s[1..]);
      if s[0] == '&' {
        assert Fields(s)[1..] == rest;
        assert [s[0]] + s[1..] == s;
      } else {
        assert Fields(s)[1..] == rest[1..];
        assert [s[0]] + s[1..] == s;
      }
    }
  }

  /** In a separator-free snapshot the query splits into the search term and
      exactly one `key=value` pair per non-empty filter, in the order status,
      species, gender. */
  lemma UrlFields(f: FilterState)
    requires SeparatorFree(f)
    ensures Base <= RequestUrl(f)
    ensures Fields(RequestUrl(f)[|Base|..]) == [f.searchTerm] + Pairs(f)
  {
    QueryIsSearchAndPairs(f);
    var ps := Pairs(f);
    forall i | 0 <= i < |ps| ensures '&' !in ps[i] {
    }
    assert RequestUrl(f)[|Base|..] == f.searchTerm + Prefixed(ps);
    FieldsOfJoin(f.searchTerm, ps);
  }

  /** Taking a pair whose key matches gives its non-empty value back. */
  lemma TakeMatching(key: string, value: string, rest: seq<string>)
    requires value != ""
    ensures TakeValue(key, Pair(key, value) + rest) == (value, rest)
  {
    var ps := Pair(key, value) + rest;
    assert ps[0] == key + value;
    assert ps[0][|key|..] == value;
    assert ps[1..] == rest;
  }

  /** A key is not taken from pairs that start with another key whose second
      character differs. */
  lemma TakeOther(key: string, other: string, value: string, rest: seq<string>)
    requires |key| >= 2 && |other| >= 2 && key[1] != other[1] && value != ""
    ensures TakeValue(key, Pair(other, value) + rest) == ("", Pair(other, value) + rest)
  {
    var ps := Pair(other, value) + rest;
    assert ps[0][1] == other[1];
  }

  lemma TakeStatus(f: FilterState)
    ensures TakeValue("status=", Pairs(f)) == (f.status, Pair("species=", f.species) + Pair("gender=", f.gender))
  {
    var rest := Pair("species=", f.species) + Pair("gender=", f.gender);
    assert Pairs(f) == Pair("status=", f.status) + rest;
    if f.status != "" {
      TakeMatching("status=", f.status, rest);
    } else if f.species != "" {
      assert Pairs(f) == rest;
      TakeOther("status=", "species=", f.species, Pair("gender=", f.gender));
    } else if f.gender != "" {
      assert rest == Pair("gender=", f.gender) + [];
      TakeOther("status=", "gender=", f.gender, []);
    }
  }

  lemma TakeSpecies(f: FilterState)
    ensures TakeValue("species=", Pair("species=", f.species) + Pair("gender=", f.gender)) == (f.species, Pair("gender=", f.gender))
  {
    if f.species != "" {
      TakeMatching("species=", f.species, Pair("gender=", f.gender));
    } else if f.gender != "" {
      assert Pair("species=", f.species) + Pair("gender=", f.gender) == Pair("gender=", f.gender) + [];
      assert Pair("gender=", f.gender) + [] == Pair("gender=", f.gender);
      TakeOther("species=", "gender=", f.gender, []);
    }
  }

  lemma TakeGender(f: FilterState)
    ensures TakeValue("gender=", Pair("gender=", f.gender)) == (f.gender, [])
  {
    if f.gender != "" {
      assert Pair("gender=", f.gender) == Pair("gender=", f.gender) + [];
      TakeMatching("gender=", f.gender, []);
    }
  }

  /** Parsing the URL of a separator-free snapshot gives the snapshot back. */
  lemma ParseRequestUrl(f: FilterState)
    requires SeparatorFree(f)
    ensures ParseUrl(RequestUrl(f)) == Some(f)
  {
    UrlFields(f);
    var fields := Fields(RequestUrl(f)[|Base|..]);
    assert fields[1..] == Pairs(f);
    TakeStatus(f);
    TakeSpecies(f);
    TakeGender(f);
  }

  /** Two separator-free snapshots with the same URL are the same snapshot. */
  lemma UrlInjective(f: FilterState, g: FilterState)
    requires SeparatorFree(f) && SeparatorFree(g)
    requires RequestUrl(f) == RequestUrl(g)
    ensures f == g
  {
    ParseRequestUrl(f);
    ParseRequestUrl(g);
  }

  /** Taking a value off the pairs splits their joined form into that value's
      segment and the rest. */
  lemma TakeValueSplits(key: string, ps: seq<string>)
    ensures Prefixed(ps) == Param("&" + key, TakeValue(key, ps).0) + Prefixed(TakeValue(key, ps).1)
  {
    if |ps| > 0 && key <= ps[0] && |ps[0]| > |key| {
      assert ps[0] == key + ps[0][|key|..];
    }
  }

  lemma ParsedFieldsRejoin(fields: seq<string>)
    requires |fields| >= 1 && ParseFields(fields).Some?
    ensures var f := ParseFields(fields).value;
      f.searchTerm + Param("&status=", f.status) + Param("&species=", f.species) + Param("&gender=", f.gender)
      == fields[0] + Prefixed(fields[1..])
  {
    var (status, afterStatus) := TakeValue("status=", fields[1..]);
    var (species, afterSpecies) := TakeValue("species=", afterStatus);
    TakeValueSplits("status=", fields[1..]);
    TakeValueSplits("species=", afterStatus);
    TakeValueSplits("gender=", afterSpecies);
    SegmentSpelling();
  }

  /** The URL is the base followed by the query the filters make. */
  lemma UrlIsBaseAndQuery(f: FilterState)
    ensures RequestUrl(f) == Base + (f.searchTerm + Param("&status=", f.status) + Param("&species=", f.species) + Param("&gender=", f.gender))
  {
  }

  /** Every URL ParseUrl accepts is the URL of the snapshot it returns. */
  lemma ParsedUrlRebuilds(url: string)
    requires ParseUrl(url).Some?
    ensures RequestUrl(ParseUrl(url).value) == url
  {
    var query := url[|Base|..];
    JoinOfFields(query);
    ParsedFieldsRejoin(Fields(query));
    UrlIsBaseAndQuery(ParseUrl(url).value);
    assert url == Base + query;
  }

  /** The search term is not encoded, so a term holding a separator produces the
      same URL as a status filter: the URL alone does not determine the state. */
  lemma SearchTermCanMimicFilter()
    ensures RequestUrl(FilterState("Rick&status=dead", "", "", "")) == RequestUrl(FilterState("Rick", "dead", "", ""))
  {
  }
}
