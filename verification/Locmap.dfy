/** The POSIX locale to Windows LCID mapping of src/dcl/win32/locmap.c, over an arbitrary table. */
module Locmap {
  import opened Options

  // A C string: its characters up to the terminating zero.
  type CString = s: string | forall i :: 0 <= i < |s| ==> s[i] != '\0'

  datatype Region = Region(hostID: nat, posixID: CString)

  // One language: its first region is the language itself.
  type Entry = e: seq<Region> | |e| > 0 witness [Region(0, "")]

  // What is written to *status; None is a status left untouched.
  datatype Status = UsingFallback | IllegalArgument

  datatype Found = Found(hostID: nat, status: Option<Status>)

  // fallbackValue as long as there is none: (uint32_t)-1.
  const NO_VALUE := 0xFFFF_FFFF

  function At(s: CString, i: nat): char
    requires i <= |s|
  {
    if i < |s| then s[i] else '\0'
  }

  // The sign of strcmp.
  function Compare(a: CString, b: CString): int {
    if At(a, 0) < At(b, 0) then -1
    else if At(a, 0) > At(b, 0) then 1
    else if a == "" then 0
    else Compare(a[1..], b[1..])
  }

  predicate IsPrefix(a: CString, b: CString) {
    |a| <= |b| && b[..|a|] == a
  }

  predicate IsSeparator(c: char) {
    c == '_' || c == '@'
  }

  lemma {:induction false} CompareZero(a: CString, b: CString)
    ensures Compare(a, b) == 0 <==> a == b
  {
    if a != "" && b != "" && a[0] == b[0] {
      CompareZero(a[1..], b[1..]);
      assert a == [a[0]] + a[1..] && b == [b[0]] + b[1..];
    }
  }

  lemma {:induction false} CompareTransitive(a: CString, b: CString, c: CString)
    requires Compare(a, b) < 0 && Compare(b, c) <= 0
    ensures Compare(a, c) < 0
  {
    if a != "" && b != "" && c != "" && a[0] == b[0] == c[0] {
      CompareTransitive(a[1..], b[1..], c[1..]);
    }
  }

  lemma {:induction false} CompareAntisymmetric(a: CString, b: CString)
    ensures Compare(a, b) < 0 <==> Compare(b, a) > 0
  {
    if a != "" && b != "" && a[0] == b[0] {
      CompareAntisymmetric(a[1..], b[1..]);
    }
  }

  // The length of the longest common prefix.
  method IdCmp(id1: CString, id2: CString) returns (diffIdx: nat)
    ensures diffIdx <= |id1| && diffIdx <= |id2| && id1[..diffIdx] == id2[..diffIdx]
    ensures diffIdx < |id1| && diffIdx < |id2| ==> id1[diffIdx] != id2[diffIdx]
    ensures diffIdx == |id2| <==> IsPrefix(id2, id1)
  {
    diffIdx := 0;
    while At(id1, diffIdx) == At(id2, diffIdx) && At(id1, diffIdx) != '\0'
      invariant diffIdx <= |id1| && diffIdx <= |id2| && id1[..diffIdx] == id2[..diffIdx]
      decreases |id1| - diffIdx
    {
      diffIdx := diffIdx + 1;
    }
    assert diffIdx < |id1| && diffIdx < |id2| ==> id1[diffIdx] != id2[diffIdx];
    assert IsPrefix(id2, id1) ==> forall i :: 0 <= i < |id2| ==> id1[i] == id1[..|id2|][i] == id2[i];
  }

  // The first of the first n regions whose ID is id.
  function FirstExact(e: seq<Region>, id: CString, n: nat): (r: Option<nat>)
    requires n <= |e|
    ensures r.Some? ==> r.value < n && e[r.value].posixID == id && forall i :: 0 <= i < r.value ==> e[i].posixID != id
    ensures r.None? ==> forall i :: 0 <= i < n ==> e[i].posixID != id
  {
    if n == 0 then None
    else if FirstExact(e, id, n - 1).Some? then FirstExact(e, id, n - 1)
    else if e[n - 1].posixID == id then Some(n - 1)
    else None
  }

  // A region that can stand for id: its ID is a prefix. The empty ID stands for itself in the first region only.
  predicate Candidate(e: seq<Region>, id: CString, i: nat)
    requires i < |e|
  {
    IsPrefix(e[i].posixID, id) && (e[i].posixID != "" || i == 0)
  }

  // The candidate with the longest ID among the first n regions, the first of them if several.
  function Longest(e: seq<Region>, id: CString, n: nat): (r: Option<nat>)
    requires n <= |e|
    ensures r.Some? ==> r.value < n && Candidate(e, id, r.value)
    ensures r.Some? ==> forall i :: 0 <= i < n && Candidate(e, id, i) ==>
              |e[i].posixID| <= |e[r.value].posixID| && (i < r.value ==> |e[i].posixID| < |e[r.value].posixID|)
    ensures r.None? ==> forall i :: 0 <= i < n ==> !Candidate(e, id, i)
  {
    if n == 0 then None
    else
      var before := Longest(e, id, n - 1);
      if Candidate(e, id, n - 1) && (before.None? || |e[before.value].posixID| < |e[n - 1].posixID|) then Some(n - 1)
      else before
  }

  // getHostID: an exact match; else the longest candidate, if a separator follows its ID; else an error.
  function HostOf(e: Entry, id: CString): Found {
    var exact, longest := FirstExact(e, id, |e|), Longest(e, id, |e|);
    if exact.Some? && id != "" then Found(e[exact.value].hostID, None)
    else if longest.Some? && IsSeparator(At(id, |e[longest.value].posixID|)) then
      Found(e[longest.value].hostID, Some(UsingFallback))
    else Found(e[0].hostID, Some(IllegalArgument))
  }

  method GetHostID(e: Entry, posixID: CString) returns (r: Found)
    ensures r == HostOf(e, posixID)
  {
    var bestIdx, bestIdxDiff := 0, 0;
    for idx := 0 to |e|
      invariant bestIdx < |e| && bestIdxDiff <= |posixID| && (idx == 0 ==> bestIdxDiff == 0)
      invariant posixID != "" ==> FirstExact(e, posixID, idx).None? && bestIdxDiff < |posixID|
      invariant bestIdxDiff > 0 ==> Longest(e, posixID, idx) == Some(bestIdx) && |e[bestIdx].posixID| == bestIdxDiff
      invariant (bestIdxDiff == 0 ==> bestIdx == 0) && bestIdxDiff <= |e[bestIdx].posixID|
      invariant bestIdxDiff == 0 ==> Longest(e, posixID, idx) == if idx > 0 && e[0].posixID == "" then Some(0) else None
    {
      var sameChars := IdCmp(posixID, e[idx].posixID);
      if sameChars > bestIdxDiff && At(e[idx].posixID, sameChars) == '\0' {
        if |posixID| == sameChars {
          FirstExactGrows(e, posixID, idx);
          return Found(e[idx].hostID, None);
        }
        bestIdxDiff := sameChars;
        bestIdx := idx;
      }
    }
    if IsSeparator(At(posixID, bestIdxDiff)) && At(e[bestIdx].posixID, bestIdxDiff) == '\0' {
      return Found(e[bestIdx].hostID, Some(UsingFallback));
    }
    return Found(e[0].hostID, Some(IllegalArgument));
  }

  lemma {:induction false} FirstExactGrows(e: seq<Region>, id: CString, i: nat)
    requires i < |e| && FirstExact(e, id, i).None? && e[i].posixID == id
    ensures FirstExact(e, id, |e|) == Some(i)
  {
    assert FirstExact(e, id, i + 1) == Some(i);
    FirstExactStays(e, id, i + 1, |e|);
  }

  lemma {:induction false} FirstExactStays(e: seq<Region>, id: CString, m: nat, n: nat)
    requires m <= n <= |e| && FirstExact(e, id, m).Some?
    ensures FirstExact(e, id, n) == FirstExact(e, id, m)
  {
    if m < n {
      FirstExactStays(e, id, m, n - 1);
    }
  }

  function Language(e: Entry): CString {
    e[0].posixID
  }

  ghost predicate Ascending(table: seq<Entry>) {
    forall i, j :: 0 <= i < j < |table| ==> Compare(Language(table[i]), Language(table[j])) < 0
  }

  // The binary search of convertToLCID, which stops when the middle stays where it was. It terminates
  // on every table. On an ascending one it finds a language exactly if the language is there and the
  // table does not consist of it alone: then the first middle equals the initial oldmid.
  method FindLanguage(table: seq<Entry>, langID: CString) returns (r: Option<nat>)
    ensures r.Some? ==> r.value < |table| && Language(table[r.value]) == langID
    ensures Ascending(table) && |table| != 1 && r.None? ==> forall i :: 0 <= i < |table| ==> Language(table[i]) != langID
    ensures |table| == 1 ==> r.None?
  {
    var low, high, oldmid := 0, |table|, 0;
    while high > low
      invariant low <= high <= |table|
      invariant Ascending(table) ==> forall i :: 0 <= i < low ==> Compare(langID, Language(table[i])) > 0
      invariant Ascending(table) ==> forall i :: high <= i < |table| ==> Compare(langID, Language(table[i])) < 0
      invariant (low == 0 && high == |table| && oldmid == 0)
             || (oldmid == low < |table| && Compare(langID, Language(table[low])) > 0)
             || oldmid == high
      invariant low > 0 ==> low < |table| && Compare(langID, Language(table[low])) > 0
      decreases high - low, if (high + low) / 2 == oldmid then 0 else 1
    {
      var mid := (high + low) / 2;
      if mid == oldmid {
        break;
      }
      var compVal := Compare(langID, Language(table[mid]));
      if compVal < 0 {
        if Ascending(table) {
          Above(table, langID, mid);
        }
        high := mid;
      } else if compVal > 0 {
        if Ascending(table) {
          Below(table, langID, mid);
        }
        low := mid;
      } else {
        CompareZero(langID, Language(table[mid]));
        return Some(mid);
      }
      oldmid := mid;
    }
    if Ascending(table) && |table| != 1 {
      forall i | 0 <= i < |table|
        ensures Language(table[i]) != langID
      {
        CompareZero(langID, Language(table[i]));
      }
    }
    return None;
  }

  lemma Above(table: seq<Entry>, lang: CString, m: nat)
    requires Ascending(table) && m < |table| && Compare(lang, Language(table[m])) < 0
    ensures forall i :: m <= i < |table| ==> Compare(lang, Language(table[i])) < 0
  {
    forall i | m < i < |table|
      ensures Compare(lang, Language(table[i])) < 0
    {
      CompareTransitive(lang, Language(table[m]), Language(table[i]));
    }
  }

  lemma Below(table: seq<Entry>, lang: CString, m: nat)
    requires Ascending(table) && m < |table| && Compare(lang, Language(table[m])) > 0
    ensures forall i :: 0 <= i <= m ==> Compare(lang, Language(table[i])) > 0
  {
    forall i | 0 <= i < m
      ensures Compare(lang, Language(table[i])) > 0
    {
      CompareAntisymmetric(Language(table[m]), lang);
      CompareTransitive(Language(table[i]), Language(table[m]), lang);
      CompareAntisymmetric(Language(table[i]), lang);
    }
  }

  // The first of the first n entries with an exact match for id.
  function FirstMatch(table: seq<Entry>, id: CString, n: nat): (r: Option<nat>)
    requires n <= |table|
    ensures r.Some? ==> r.value < n && HostOf(table[r.value], id).status.None?
    ensures r.Some? ==> forall i :: 0 <= i < r.value ==> HostOf(table[i], id).status.Some?
    ensures r.None? ==> forall i :: 0 <= i < n ==> HostOf(table[i], id).status.Some?
  {
    if n == 0 then None
    else if FirstMatch(table, id, n - 1).Some? then FirstMatch(table, id, n - 1)
    else if HostOf(table[n - 1], id).status.None? then Some(n - 1)
    else None
  }

  // The host ID of the last of the first n entries with a fallback for id.
  function LastFallback(table: seq<Entry>, id: CString, n: nat): nat
    requires n <= |table|
  {
    if n == 0 then NO_VALUE
    else if HostOf(table[n - 1], id).status == Some(UsingFallback) then HostOf(table[n - 1], id).hostID
    else LastFallback(table, id, n - 1)
  }

  // The linear search of convertToLCID.
  function LinearSearch(table: seq<Entry>, id: CString): Found {
    var m := FirstMatch(table, id, |table|);
    var fallback := LastFallback(table, id, |table|);
    if m.Some? then HostOf(table[m.value], id)
    else if fallback != NO_VALUE then Found(fallback, Some(UsingFallback))
    else Found(0, Some(IllegalArgument))
  }

  lemma {:induction false} FirstMatchGrows(table: seq<Entry>, id: CString, m: nat, n: nat)
    requires m <= n <= |table| && FirstMatch(table, id, m).Some?
    ensures FirstMatch(table, id, n) == FirstMatch(table, id, m)
  {
    hide HostOf;
    if m < n {
      FirstMatchGrows(table, id, m, n - 1);
    }
  }

  predicate Complete(id: Option<CString>) {
    id.Some? && |id.value| >= 2
  }

  // An entry of the table has id as one of its regions, with this host ID.
  ghost predicate HasRegion(table: seq<Entry>, id: CString, hostID: nat) {
    exists e, i :: 0 <= e < |table| && 0 <= i < |table[e]| && table[e][i] == Region(hostID, id)
  }

  // convertToLCID; a null pointer is None.
  method ConvertToLCID(table: seq<Entry>, langID: Option<CString>, posixID: Option<CString>) returns (r: Found)
    ensures !Complete(langID) || !Complete(posixID) ==> r == Found(0, None)
    ensures langID.Some? && posixID.Some? && (|langID.value| < 2 || |posixID.value| < 2) ==> r == Found(0, None)
    ensures Complete(langID) && Complete(posixID) ==>
      || r == LinearSearch(table, posixID.value)
      || exists m :: 0 <= m < |table| && Language(table[m]) == langID.value && r == HostOf(table[m], posixID.value)
    ensures Complete(langID) && Complete(posixID) && Ascending(table) && |table| != 1 ==>
      forall m :: 0 <= m < |table| && Language(table[m]) == langID.value ==> r == HostOf(table[m], posixID.value)
    ensures Complete(langID) && Complete(posixID) && |table| == 1 ==> r == LinearSearch(table, posixID.value)
    ensures Complete(langID) && Complete(posixID) && r.status.None? ==> HasRegion(table, posixID.value, r.hostID)
  {
    if !Complete(langID) || !Complete(posixID) {
      return Found(0, None);
    }
    var id := posixID.value;
    var m := FindLanguage(table, langID.value);
    hide HostOf, LinearSearch, HasRegion;
    if m.Some? {
      r := GetHostID(table[m.value], id);
      MatchIsRegion(table, id, m.value);
      if Ascending(table) {
        OneEntry(table, m.value);
      }
    } else {
      r := SearchAll(table, id);
    }
  }

  // The loop over all entries at the end of convertToLCID.
  method SearchAll(table: seq<Entry>, id: CString) returns (r: Found)
    ensures r == LinearSearch(table, id)
    ensures r.status.None? ==> HasRegion(table, id, r.hostID)
  {
    hide HostOf, HasRegion;
    var fallbackValue := NO_VALUE;
    for idx := 0 to |table|
      invariant FirstMatch(table, id, idx).None? && fallbackValue == LastFallback(table, id, idx)
    {
      var value := GetHostID(table[idx], id);
      if value.status.None? {
        assert FirstMatch(table, id, idx + 1) == Some(idx);
        FirstMatchGrows(table, id, idx + 1, |table|);
        MatchIsRegion(table, id, idx);
        return value;
      } else if value.status == Some(UsingFallback) {
        fallbackValue := value.hostID;
      }
    }
    if fallbackValue != NO_VALUE {
      return Found(fallbackValue, Some(UsingFallback));
    }
    return Found(0, Some(IllegalArgument));
  }

  lemma MatchIsRegion(table: seq<Entry>, id: CString, m: nat)
    requires m < |table|
    ensures HostOf(table[m], id).status.None? ==> HasRegion(table, id, HostOf(table[m], id).hostID)
  {
    var exact := FirstExact(table[m], id, |table[m]|);
    if exact.Some? {
      assert table[m][exact.value] == Region(table[m][exact.value].hostID, id);
    }
  }

  lemma OneEntry(table: seq<Entry>, m: nat)
    requires Ascending(table) && m < |table|
    ensures forall i :: 0 <= i < |table| && Language(table[i]) == Language(table[m]) ==> i == m
  {
    CompareZero(Language(table[m]), Language(table[m]));
    forall i | 0 <= i < |table| && i != m
      ensures Language(table[i]) != Language(table[m])
    {
      if i < m {
        assert Compare(Language(table[i]), Language(table[m])) < 0;
      } else {
        assert Compare(Language(table[m]), Language(table[i])) < 0;
      }
    }
  }

  // A region whose ID is a prefix of id that ends before a separator.
  predicate Separated(e: seq<Region>, id: CString, i: nat)
    requires i < |e|
  {
    Candidate(e, id, i) && IsSeparator(At(id, |e[i].posixID|))
  }

  // The longest of those, the first of them if several.
  ghost predicate LongestSeparated(e: seq<Region>, id: CString, i: nat)
    requires i < |e|
  {
    Separated(e, id, i) &&
    forall j :: 0 <= j < |e| && Separated(e, id, j) ==>
      |e[j].posixID| <= |e[i].posixID| && (j < i ==> |e[j].posixID| < |e[i].posixID|)
  }

  // The fallback goes to the longest prefix that ends before a separator exactly when no longer
  // region ID is a prefix too: a longer one that ends inside a word hides it.
  lemma FallbackTakesLongestSeparated(e: Entry, id: CString, i: nat)
    requires i < |e| && LongestSeparated(e, id, i) && (id == "" || FirstExact(e, id, |e|).None?)
    ensures (Longest(e, id, |e|) == Some(i) && HostOf(e, id) == Found(e[i].hostID, Some(UsingFallback))) <==>
            forall j :: 0 <= j < |e| && Candidate(e, id, j) ==> |e[j].posixID| <= |e[i].posixID|
  {
    var longest := Longest(e, id, |e|).value;
    if forall j :: 0 <= j < |e| && Candidate(e, id, j) ==> |e[j].posixID| <= |e[i].posixID| {
      assert |e[longest].posixID| == |e[i].posixID|;
      assert Separated(e, id, longest);
    }
  }

  // For en_USX, the region en_US hides the region en.
  lemma HiddenFallback()
    ensures
      var e: Entry := [Region(9, "en"), Region(0x409, "en_US")];
      && LongestSeparated(e, "en_USX", 0)
      && HostOf(e, "en_USX") == Found(9, Some(IllegalArgument))
  {
    var e: Entry := [Region(9, "en"), Region(0x409, "en_US")];
    var id: CString := "en_USX";
    assert id[..2] == "en" && id[..5] == "en_US";
    assert Longest(e, id, 0).None? && Longest(e, id, 1) == Some(0) && Longest(e, id, 2) == Some(1);
  }

  // The longest candidate found by the code, whatever the table: an exact match decides, and
  // without one the status tells whether a separator follows the longest candidate.
  lemma HostOfStatus(e: Entry, id: CString)
    requires id != ""
    ensures HostOf(e, id).status.None? <==> exists i :: 0 <= i < |e| && e[i].posixID == id
    ensures HostOf(e, id).status == Some(UsingFallback) <==>
            (forall i :: 0 <= i < |e| ==> e[i].posixID != id) &&
            exists i :: 0 <= i < |e| && Separated(e, id, i) &&
              forall j :: 0 <= j < |e| && Candidate(e, id, j) ==> |e[j].posixID| <= |e[i].posixID|
  {
    var longest := Longest(e, id, |e|);
    if i :| 0 <= i < |e| && Separated(e, id, i) && forall j :: 0 <= j < |e| && Candidate(e, id, j) ==> |e[j].posixID| <= |e[i].posixID| {
      assert |e[longest.value].posixID| == |e[i].posixID|;
    }
    if longest.Some? && IsSeparator(At(id, |e[longest.value].posixID|)) {
      assert Separated(e, id, longest.value);
    }
  }

  // Strings compare by their first difference; a string comes before its continuations.
  lemma {:induction false} CompareDecides(p: CString, a: CString, b: CString)
    requires forall i :: 0 <= i < |p + a| ==> (p + a)[i] != '\0'
    requires forall i :: 0 <= i < |p + b| ==> (p + b)[i] != '\0'
    requires b != "" && (a == "" || a[0] < b[0])
    ensures Compare(p + a, p + b) == -1 && Compare(p + b, p + a) == 1
  {
    if p == "" {
      assert p + a == a && p + b == b;
    } else {
      assert (p + a)[1..] == p[1..] + a && (p + b)[1..] == p[1..] + b;
      CompareDecides(p[1..], a, b);
    }
  }

  lemma OneRegion(h: nat, p: CString, id: CString)
    requires p < id
    ensures HostOf([Region(h, p)], id) == Found(h, Some(if IsSeparator(id[|p|]) then UsingFallback else IllegalArgument))
  {
    var e: Entry := [Region(h, p)];
    assert IsPrefix(p, id);
    assert Longest(e, id, 0).None? && Longest(e, id, 1) == Some(0);
    assert FirstExact(e, id, 1).None?;
  }

  // A region stands for its ID followed by an underscore or an at sign, and by no other character.
  lemma WhatSeparates(h: nat, p: CString, c: char, rest: string)
    requires c != '\0' && forall i :: 0 <= i < |rest| ==> rest[i] != '\0'
    ensures HostOf([Region(h, p)], p + [c] + rest)
         == Found(h, Some(if c == '_' || c == '@' then UsingFallback else IllegalArgument))
  {
    var id: CString := p + [c] + rest;
    assert id[|p|] == c;
    OneRegion(h, p, id);
  }

  // A fallback to the host ID (uint32_t)-1 is lost in the linear search: it marks the absence of one.
  lemma FallbackLost(h: nat, p: CString, rest: CString)
    requires forall i :: 0 <= i < |p + "_" + rest| ==> (p + "_" + rest)[i] != '\0'
    ensures LinearSearch([[Region(h, p)]], p + "_" + rest)
         == if h == 0xFFFF_FFFF then Found(0, Some(IllegalArgument)) else Found(h, Some(UsingFallback))
  {
    var table: seq<Entry> := [[Region(h, p)]];
    var id: CString := p + "_" + rest;
    assert id[|p|] == '_';
    OneRegion(h, p, id);
    assert FirstMatch(table, id, 0).None? && LastFallback(table, id, 0) == NO_VALUE;
  }

  // The empty identifier is never found, not even where a region has it.
  lemma EmptyIsIllegal(e: Entry)
    ensures HostOf(e, "") == Found(e[0].hostID, Some(IllegalArgument))
  {}

  lemma {:induction false} NoFallbackBehind(table: seq<Entry>, id: CString, m: nat, n: nat)
    requires m < n <= |table| && HostOf(table[m], id).status == Some(UsingFallback)
    requires forall i :: m < i < n ==> HostOf(table[i], id).status != Some(UsingFallback)
    ensures LastFallback(table, id, n) == HostOf(table[m], id).hostID
  {
    hide HostOf;
    if m + 1 < n {
      NoFallbackBehind(table, id, m, n - 1);
    }
  }

  // Without an exact match anywhere, the last entry that has a fallback decides.
  lemma LastFallbackDecides(table: seq<Entry>, id: CString, m: nat)
    requires m < |table| && forall i :: 0 <= i < |table| ==> HostOf(table[i], id).status.Some?
    requires HostOf(table[m], id).status == Some(UsingFallback) && HostOf(table[m], id).hostID != 0xFFFF_FFFF
    requires forall i :: m < i < |table| ==> HostOf(table[i], id).status != Some(UsingFallback)
    ensures LinearSearch(table, id) == Found(HostOf(table[m], id).hostID, Some(UsingFallback))
  {
    NoFallbackBehind(table, id, m, |table|);
  }
}
