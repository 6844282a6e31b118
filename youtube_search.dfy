/** `youtube_search.search_youtube_music`: the search request handed to yt-dlp
    and the normalisation of the entries it answers with into
    title / id / url records. yt-dlp itself is not modelled: its answer, or the
    exception it raised, is a parameter. */
module YoutubeSearch {
  import opened Outcomes
  import opened PyText

  /** One item of `info['entries']` as a dict from key to (string) value;
      `None` stands for a Python `None` item. */
  type Entry = map<string, string>

  /** The part of the dict `extract_info` returns that the search reads:
      `entries` absent or a list of items. */
  datatype SearchInfo = SearchInfo(entries: Option<seq<Option<Entry>>>)

  /** One search result: the dict with keys 'title', 'id' and 'url'. */
  datatype Track = Track(title: string, id: string, url: string)

  const SearchPrefix: string := "ytsearch"
  const WatchPrefix: string := "https://www.youtube.com/watch?v="
  const UnknownTitle: string := "Unknown Title"
  const UnknownId: string := "Unknown ID"

  /** The search string `f"ytsearch{max_results}:{query}"`: it starts with
      the search prefix and ends with the query after a colon. */
  function SearchString(query: string, maxResults: int): (s: string)
    ensures |s| > |SearchPrefix| + |query| && s[..|SearchPrefix|] == SearchPrefix
    ensures s[|s| - |query| - 1] == ':' && s[|s| - |query|..] == query
  {
    SearchPrefix + IntToString(maxResults) + ":" + query
  }

  /** The search string can be taken apart again: after the prefix, the text up
      to the first ':' parses back to `maxResults`, and everything after that
      colon is the query, whatever colons the query itself holds. */
  lemma SearchStringDecodes(query: string, maxResults: int)
    ensures var s, k := SearchString(query, maxResults), |SearchPrefix| + |IntToString(maxResults)|;
            && k < |s|
            && s[..|SearchPrefix|] == SearchPrefix
            && s[k] == ':'
            && (forall i :: |SearchPrefix| <= i < k ==> s[i] != ':')
            && s[k + 1..] == query
            && ParseInt(s[|SearchPrefix| .. k]).Some?
            && ParseInt(s[|SearchPrefix| .. k]).value == maxResults
  {
    var digits := IntToString(maxResults);
    NoColonInNumber(maxResults);
    ParseIntToString(maxResults);
    assert ParseInt(digits).Some? && ParseInt(digits).value == maxResults;
    Pieces(SearchPrefix, digits, query);
  }

  /** Where the three pieces of `prefix + digits + ":" + query` sit. */
  lemma Pieces(prefix: string, digits: string, query: string)
    requires forall i :: 0 <= i < |digits| ==> digits[i] != ':'
    ensures var s, k := prefix + digits + ":" + query, |prefix| + |digits|;
            && k < |s|
            && s[..|prefix|] == prefix
            && s[k] == ':'
            && (forall i :: |prefix| <= i < k ==> s[i] != ':')
            && s[k + 1..] == query
            && s[|prefix| .. k] == digits
  {
    var s, k := prefix + digits + ":" + query, |prefix| + |digits|;
    assert forall i :: |prefix| <= i < k ==> s[i] == digits[i - |prefix|];
  }

  lemma NoColonInNumber(n: int)
    ensures forall i :: 0 <= i < |IntToString(n)| ==> IntToString(n)[i] != ':'
  {
    if n < 0 {
      var ds := NatToString(-n);
      assert IntToString(n) == "-" + ds;
      assert forall i :: 1 <= i < |IntToString(n)| ==> IntToString(n)[i] == ds[i - 1];
    }
  }

  /** `if entry:` — a `None` item and an empty dict are skipped. */
  predicate Truthy(e: Option<Entry>) {
    e.Some? && |e.value| > 0
  }

  /** The record built from one entry: a missing title or id is filled in
      with its placeholder. The url uses `entry.get('id')`, which is `None` for
      an entry without an id, so the url then ends in "None". */
  function ToTrack(e: Entry): (t: Track)
    ensures "title" in e ==> t.title == e["title"]
    ensures "title" !in e ==> t.title == UnknownTitle
    ensures "id" in e ==> t.id == e["id"]
    ensures "id" !in e ==> t.id == UnknownId
    ensures |t.url| >= |WatchPrefix| && t.url[..|WatchPrefix|] == WatchPrefix
  {
    Track(
      if "title" in e then e["title"] else UnknownTitle,
      if "id" in e then e["id"] else UnknownId,
      WatchPrefix + (if "id" in e then e["id"] else "None"))
  }

  /** A record's url is the watch url of its id exactly when the entry had an
      id; without one the id reads 'Unknown ID' while the url ends in 'None'. */
  lemma TrackUrlMatchesId(e: Entry)
    ensures var t := ToTrack(e);
            && (t.url == WatchPrefix + t.id <==> "id" in e)
            && ("id" !in e ==> t.id == UnknownId && t.url == WatchPrefix + "None")
  {
    var t := ToTrack(e);
    if "id" !in e {
      assert UnknownId[0] != "None"[0];
      assert (WatchPrefix + t.id)[|WatchPrefix|] != t.url[|WatchPrefix|];
    }
  }

  /** The records the loop of `search_youtube_music` collects from `entries`. */
  function Tracks(entries: seq<Option<Entry>>): (r: seq<Track>)
    ensures |r| <= |entries|
  {
    if entries == [] then []
    else
      var last := entries[|entries| - 1];
      Tracks(entries[..|entries| - 1]) + (if Truthy(last) then [ToTrack(last.value)] else [])
  }

  /** The positions of the entries that are kept. */
  function Kept(entries: seq<Option<Entry>>): (idx: seq<nat>)
    ensures forall j :: 0 <= j < |idx| ==> idx[j] < |entries| && Truthy(entries[idx[j]])
    ensures forall j, j' :: 0 <= j < j' < |idx| ==> idx[j] < idx[j']
    ensures forall i :: 0 <= i < |entries| && Truthy(entries[i]) ==> i in idx
  {
    if entries == [] then []
    else
      var n := |entries| - 1;
      Kept(entries[..n]) + (if Truthy(entries[n]) then [n] else [])
  }

  /** Every truthy entry, and no other, becomes one record, in the order of
      the entries. */
  lemma {:induction false} TracksFollowEntries(entries: seq<Option<Entry>>)
    ensures |Tracks(entries)| == |Kept(entries)|
    ensures forall j :: 0 <= j < |Kept(entries)| ==>
              Tracks(entries)[j] == ToTrack(entries[Kept(entries)[j]].value)
  {
    if entries != [] {
      var n := |entries| - 1;
      var init := entries[..n];
      TracksFollowEntries(init);
      assert forall i :: 0 <= i < n ==> init[i] == entries[i];
    }
  }

  /** Normalising a list of entries is normalising its parts. */
  lemma {:induction false} TracksAppend(a: seq<Option<Entry>>, b: seq<Option<Entry>>)
    ensures Tracks(a + b) == Tracks(a) + Tracks(b)
    decreases |b|
  {
    if b == [] {
      assert a + b == a;
    } else {
      var n := |b| - 1;
      assert (a + b)[..|a + b| - 1] == a + b[..n];
      TracksAppend(a, b[..n]);
    }
  }

  /** `search_youtube_music(query, max_results)`, where `response` is what
      `extract_info` returned or the text of the exception it raised. Returns
      the search string handed to `extract_info` and the result list. */
  method SearchYoutubeMusic(query: string, maxResults: int, response: Result<SearchInfo, string>)
    returns (request: string, results: seq<Track>)
    ensures request == SearchString(query, maxResults)
    ensures response.Err? || response.value.entries.None? ==> results == []
    ensures response.Ok? && response.value.entries.Some? ==>
              results == Tracks(response.value.entries.value)
  {
    request := SearchPrefix + IntToString(maxResults) + ":" + query;
    results := [];
    if response.Err? || response.value.entries.None? {
      return;
    }
    var entries := response.value.entries.value;
    var i := 0;
    while i < |entries|
      invariant 0 <= i <= |entries|
      invariant results == Tracks(entries[..i])
    {
      var entry := entries[i];
      assert entries[..i + 1][..i] == entries[..i];
      if entry.Some? && |entry.value| > 0 {
        results := results + [ToTrack(entry.value)];
      }
      i := i + 1;
    }
    assert entries[..i] == entries;
  }
}
