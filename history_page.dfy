/**
  The watch-history page: a keyword filter over the history, a select
  mode with a set of selected ids, batch delete, the play link of an
  entry and the "how long ago" label.

  The history store behind the page is represented by the `history`
  field; removing an entry drops every entry with that id.
 */
module HistoryPage {
  import opened Strings

  /** History ids are strings or numbers; the selection set tells them apart. */
  datatype Id = TextId(text: string) | NumberId(number: int)

  datatype HistoryItem = HistoryItem(id: Id, name: string, sourceKey: string, sourceName: string, timestamp: int)

  /** `${id}` */
  function IdText(id: Id): string {
    match id
    case TextId(t) => t
    case NumberId(n) => IntToString(n)
  }

  // ---------------------------------------------------------------------------
  // filteredHistory
  // ---------------------------------------------------------------------------

  predicate NameMatches(item: HistoryItem, keyword: string) {
    Contains(Lower(item.name), Lower(keyword))
  }

  /** `history.filter(item => item.name.toLowerCase().includes(keyword.toLowerCase()))` */
  function Matching(history: seq<HistoryItem>, keyword: string): (r: seq<HistoryItem>)
    ensures |r| <= |history|
    ensures forall x :: x in r <==> x in history && NameMatches(x, keyword)
  {
    if |history| == 0 then []
    else
      var rest := Matching(history[1..], keyword);
      assert forall x :: x in history <==> x == history[0] || x in history[1..];
      if NameMatches(history[0], keyword) then [history[0]] + rest else rest
  }

  /** Filtering works piece by piece, so the shown entries keep the history's order. */
  lemma {:induction false} MatchingConcat(a: seq<HistoryItem>, b: seq<HistoryItem>, keyword: string)
    ensures Matching(a + b, keyword) == Matching(a, keyword) + Matching(b, keyword)
    decreases |a|
  {
    if |a| == 0 {
      assert a + b == b;
    } else {
      assert (a + b)[0] == a[0] && (a + b)[1..] == a[1..] + b;
      MatchingConcat(a[1..], b, keyword);
    }
  }

  /** A blank keyword shows everything; otherwise the untrimmed keyword filters. */
  function Filtered(history: seq<HistoryItem>, keyword: string): seq<HistoryItem> {
    if Trim(keyword) == "" then history else Matching(history, keyword)
  }

  lemma FilteredFacts(history: seq<HistoryItem>, keyword: string)
    ensures Trim(keyword) == "" ==> Filtered(history, keyword) == history
    ensures Trim(keyword) != "" ==>
              forall x :: x in Filtered(history, keyword) <==> x in history && NameMatches(x, keyword)
    ensures |Filtered(history, keyword)| <= |history|
  {
  }

  lemma {:induction false} NoMatchEmpty(history: seq<HistoryItem>, keyword: string)
    requires forall x :: x in history ==> !NameMatches(x, keyword)
    ensures Matching(history, keyword) == []
    decreases |history|
  {
    if |history| > 0 {
      assert history[0] in history;
      NoMatchEmpty(history[1..], keyword);
    }
  }

  /** A keyword is blank exactly when every character is whitespace. */
  lemma BlankIffAllSpace(s: string)
    ensures Trim(s) == "" <==> forall i :: 0 <= i < |s| ==> IsJsSpace(s[i])
  {
    var t := TrimStart(s);
    TrimStartSuffix(s);
    TrimEndPrefix(t);
    if Trim(s) == "" {
      assert t == "";
    }
    if forall i :: 0 <= i < |s| ==> IsJsSpace(s[i]) {
      AllSpaceTrimsEmpty(s);
    }
  }

  lemma {:induction false} AllSpaceTrimsEmpty(s: string)
    requires forall i :: 0 <= i < |s| ==> IsJsSpace(s[i])
    ensures TrimStart(s) == ""
    decreases |s|
  {
    if |s| > 0 {
      AllSpaceTrimsEmpty(s[1..]);
    }
  }

  /** Only the blank check trims: a keyword with a trailing space needs that space in the name. */
  lemma UntrimmedKeyword(history: seq<HistoryItem>, word: string)
    requires Trim(word) != ""
    requires forall x :: x in history ==> !Contains(Lower(x.name), Lower(word + " "))
    ensures Filtered(history, word + " ") == []
  {
    BlankIffAllSpace(word);
    BlankIffAllSpace(word + " ");
    var i :| 0 <= i < |word| && !IsJsSpace(word[i]);
    assert (word + " ")[i] == word[i];
    NoMatchEmpty(history, word + " ");
  }

  // ---------------------------------------------------------------------------
  // Selection
  // ---------------------------------------------------------------------------

  /** toggleSelect: add an absent id, delete a present one. */
  function Toggle(selected: set<Id>, id: Id): set<Id> {
    if id in selected then selected - {id} else selected + {id}
  }

  lemma ToggleFacts(selected: set<Id>, id: Id)
    ensures id in Toggle(selected, id) <==> id !in selected
    ensures forall other :: other != id ==> (other in Toggle(selected, id) <==> other in selected)
    ensures Toggle(Toggle(selected, id), id) == selected
  {
  }

  /** The ids of a list of entries. */
  function IdSet(items: seq<HistoryItem>): (r: set<Id>)
    ensures forall x :: x in items ==> x.id in r
    ensures forall id :: id in r ==> exists i :: 0 <= i < |items| && items[i].id == id
    ensures |r| <= |items|
  {
    if |items| == 0 then {}
    else
      var rest := IdSet(items[1..]);
      assert forall x :: x in items ==> x == items[0] || x in items[1..];
      assert forall id :: id in rest ==> exists i :: 1 <= i < |items| && items[i].id == id by {
        forall id | id in rest ensures exists i :: 1 <= i < |items| && items[i].id == id {
          var j :| 0 <= j < |items[1..]| && items[1..][j].id == id;
          assert items[j + 1].id == id;
        }
      }
      {items[0].id} + rest
  }

  predicate DistinctIds(items: seq<HistoryItem>) {
    forall i, j :: 0 <= i < j < |items| ==> items[i].id != items[j].id
  }

  /** With distinct ids the id set is as large as the list; with a repeated id it is smaller. */
  lemma {:induction false} IdSetSize(items: seq<HistoryItem>)
    ensures DistinctIds(items) <==> |IdSet(items)| == |items|
    decreases |items|
  {
    if |items| > 0 {
      IdSetSize(items[1..]);
      var rest := IdSet(items[1..]);
      if items[0].id in rest {
        RepeatedHead(items);
      } else {
        assert |IdSet(items)| == |rest| + 1;
        DistinctCons(items);
      }
    }
  }

  lemma RepeatedHead(items: seq<HistoryItem>)
    requires |items| > 0 && items[0].id in IdSet(items[1..])
    ensures !DistinctIds(items) && IdSet(items) == IdSet(items[1..])
  {
    var i :| 0 <= i < |items[1..]| && items[1..][i].id == items[0].id;
    assert items[0].id == items[i + 1].id;
  }

  /** A list has distinct ids when its tail does and its head's id is not among the tail's. */
  lemma DistinctCons(items: seq<HistoryItem>)
    requires |items| > 0 && items[0].id !in IdSet(items[1..])
    ensures DistinctIds(items) <==> DistinctIds(items[1..])
  {
    if DistinctIds(items[1..]) {
      forall i, j | 0 <= i < j < |items| ensures items[i].id != items[j].id {
        if i == 0 {
          assert items[j] in items[1..];
        } else {
          assert items[i] == items[1..][i - 1] && items[j] == items[1..][j - 1];
        }
      }
    }
    if DistinctIds(items) {
      forall i, j | 0 <= i < j < |items[1..]| ensures items[1..][i].id != items[1..][j].id {
        assert items[1..][i] == items[i + 1] && items[1..][j] == items[j + 1];
      }
    }
  }

  /** toggleSelectAll: clear when the selection is as large as the shown list, else select exactly the shown ids. */
  function SelectAll(selected: set<Id>, shown: seq<HistoryItem>): set<Id> {
    if |selected| == |shown| then {} else IdSet(shown)
  }

  /** Pressing select-all twice from a partial selection clears it exactly when the shown ids are distinct. */
  lemma SelectAllTwice(selected: set<Id>, shown: seq<HistoryItem>)
    requires |selected| != |shown|
    ensures SelectAll(selected, shown) == IdSet(shown)
    ensures SelectAll(SelectAll(selected, shown), shown) == {} <==> DistinctIds(shown)
  {
    IdSetSize(shown);
    if DistinctIds(shown) {
    } else {
      assert |IdSet(shown)| < |shown|;
      if |shown| == 0 {
      } else {
        assert shown[0].id in IdSet(shown);
      }
    }
  }

  /** `removeHistory(id)` for every selected id. */
  function WithoutIds(history: seq<HistoryItem>, ids: set<Id>): (r: seq<HistoryItem>)
    ensures |r| <= |history|
    ensures forall x :: x in r <==> x in history && x.id !in ids
  {
    if |history| == 0 then []
    else
      var rest := WithoutIds(history[1..], ids);
      assert forall x :: x in history <==> x == history[0] || x in history[1..];
      if history[0].id in ids then rest else [history[0]] + rest
  }

  /** Removing nothing keeps the history. */
  lemma {:induction false} WithoutNoIds(history: seq<HistoryItem>)
    ensures WithoutIds(history, {}) == history
    decreases |history|
  {
    if |history| > 0 {
      WithoutNoIds(history[1..]);
    }
  }

  // ---------------------------------------------------------------------------
  // handlePlay
  // ---------------------------------------------------------------------------

  const PlayPrefix := "/play/"

  /** `/play/{id}?source={key}&from=history`, or `/play/{id}?from=history` without a source key. */
  function PlayUrl(item: HistoryItem): (r: string)
    ensures StartsWith(r, PlayPrefix + IdText(item.id))
    ensures |r| >= 12 && r[|r| - 12..] == "from=history"
  {
    var path := PlayPrefix + IdText(item.id);
    var query := PlayQuery(item.sourceKey);
    assert query[|query| - 12..] == "from=history";
    assert (path + query)[..|path|] == path;
    assert (path + query)[|path + query| - 12..] == query[|query| - 12..];
    path + query
  }

  function PlayQuery(sourceKey: string): string {
    if sourceKey != "" then "?source=" + sourceKey + "&from=history" else "?from=history"
  }

  /** The path of the link is the entry's id: it runs up to the first `?`, and the query names the source. */
  lemma PlayUrlPath(item: HistoryItem)
    requires forall i :: 0 <= i < |IdText(item.id)| ==> IdText(item.id)[i] != '?'
    ensures var url := PlayUrl(item);
            var k := |PlayPrefix| + |IdText(item.id)|;
            && IndexOf(url, "?") == Some(k)
            && url[..k] == PlayPrefix + IdText(item.id)
            && url[k..] == PlayQuery(item.sourceKey)
  {
    var url := PlayUrl(item);
    var k := |PlayPrefix| + |IdText(item.id)|;
    assert url == PlayPrefix + IdText(item.id) + PlayQuery(item.sourceKey);
    assert PlayQuery(item.sourceKey)[0] == '?';
    assert url[k] == PlayQuery(item.sourceKey)[0];
    assert url[k..k + 1] == "?";
    forall j | 0 <= j < k ensures !MatchAt(url, "?", j) {
      if j < |PlayPrefix| {
        assert url[j] == PlayPrefix[j];
      } else {
        assert url[j] == IdText(item.id)[j - |PlayPrefix|];
      }
    }
    assert MatchAt(url, "?", k);
  }

  /** Number ids never hold a `?`, so their links always split there. */
  lemma NumberIdPath(item: HistoryItem)
    requires item.id.NumberId?
    ensures forall i :: 0 <= i < |IdText(item.id)| ==> IdText(item.id)[i] != '?'
  {
    var n := item.id.number;
    if n < 0 {
      assert IdText(item.id) == "-" + NatToString(-n);
      assert forall i :: 1 <= i < |IdText(item.id)| ==> IdText(item.id)[i] == NatToString(-n)[i - 1];
    }
  }

  // ---------------------------------------------------------------------------
  // formatTime
  // ---------------------------------------------------------------------------

  const DayMs := 1000 * 60 * 60 * 24

  /** `Math.floor(diff / DayMs)`: the divisor is positive, so the floor is Dafny's division. */
  function Days(diff: int): (d: int)
    ensures d * DayMs <= diff < (d + 1) * DayMs
  {
    diff / DayMs
  }

  /** The label text, or a short locale date for a week or more ago. */
  datatype TimeLabel = Words(text: string) | ShortDate(timestamp: int)

  /**
    今天 under one day, 昨天 from one to two days, "n天前" from two to seven
    days, and a short date from seven days on.
   */
  function FormatTime(timestamp: int, now: int): (r: TimeLabel)
    ensures r == Words("今天") <==> 0 <= now - timestamp < DayMs
    ensures r == Words("昨天") <==> DayMs <= now - timestamp < 2 * DayMs
    ensures r.ShortDate? <==> 7 * DayMs <= now - timestamp
    ensures r.ShortDate? ==> r.timestamp == timestamp
    ensures 2 * DayMs <= now - timestamp < 7 * DayMs ==> r == Words(IntToString(Days(now - timestamp)) + "天前")
  {
    var days := Days(now - timestamp);
    assert days == 0 <==> 0 <= now - timestamp < DayMs;
    assert days == 1 <==> DayMs <= now - timestamp < 2 * DayMs;
    assert days >= 7 <==> 7 * DayMs <= now - timestamp;
    if days == 0 then Words("今天")
    else if days == 1 then Words("昨天")
    else if days < 7 then Words(IntToString(days) + "天前")
    else ShortDate(timestamp)
  }

  /** A timestamp in the future gets a negative count, such as "-1天前". */
  lemma FutureTimestamp(timestamp: int, now: int)
    requires now < timestamp
    ensures Days(now - timestamp) < 0
    ensures FormatTime(timestamp, now) == Words("-" + NatToString(-Days(now - timestamp)) + "天前")
  {
  }

  // ---------------------------------------------------------------------------
  // The page
  // ---------------------------------------------------------------------------

  class Page {
    var history: seq<HistoryItem>
    var keyword: string
    var selectMode: bool
    var selected: set<Id>

    constructor(history: seq<HistoryItem>)
      ensures this.history == history && keyword == "" && !selectMode && selected == {}
    {
      this.history := history;
      keyword := "";
      selectMode := false;
      selected := {};
    }

    function Shown(): seq<HistoryItem>
      reads this
    {
      Filtered(history, keyword)
    }

    method SetKeyword(k: string)
      modifies this
      ensures keyword == k && history == old(history) && selectMode == old(selectMode) && selected == old(selected)
    {
      keyword := k;
    }

    /** The 选择 button. */
    method EnterSelectMode()
      modifies this
      ensures selectMode && history == old(history) && keyword == old(keyword) && selected == old(selected)
    {
      selectMode := true;
    }

    /** The 取消 button of select mode. */
    method LeaveSelectMode()
      modifies this
      ensures !selectMode && selected == {} && history == old(history) && keyword == old(keyword)
    {
      selectMode := false;
      selected := {};
    }

    method ToggleSelect(id: Id)
      modifies this
      ensures selected == Toggle(old(selected), id)
      ensures history == old(history) && keyword == old(keyword) && selectMode == old(selectMode)
    {
      var next := selected;
      if id in next {
        next := next - {id};
      } else {
        next := next + {id};
      }
      selected := next;
    }

    method ToggleSelectAll()
      modifies this
      ensures selected == SelectAll(old(selected), old(Shown()))
      ensures history == old(history) && keyword == old(keyword) && selectMode == old(selectMode)
    {
      var shown := Filtered(history, keyword);
      if |selected| == |shown| {
        selected := {};
      } else {
        selected := IdSet(shown);
      }
    }

    /** deleteSelected: remove every selected id, clear the selection and leave select mode. */
    method DeleteSelected()
      modifies this
      ensures history == WithoutIds(old(history), old(selected))
      ensures selected == {} && !selectMode && keyword == old(keyword)
    {
      history := WithoutIds(history, selected);
      selected := {};
      selectMode := false;
    }

    /** The delete button of one entry, shown outside select mode. */
    method Remove(id: Id)
      modifies this
      ensures history == WithoutIds(old(history), {id})
      ensures selected == old(selected) && selectMode == old(selectMode) && keyword == old(keyword)
    {
      history := WithoutIds(history, {id});
    }

    /** The 清空 button. */
    method ClearAll()
      modifies this
      ensures history == [] && selected == old(selected) && selectMode == old(selectMode) && keyword == old(keyword)
    {
      history := [];
    }

    /** handlePlay: in select mode a click toggles the entry; otherwise it opens the entry's play link. */
    method Click(item: HistoryItem) returns (navigateTo: Option<string>)
      modifies this
      ensures old(selectMode) ==> navigateTo.None? && selected == Toggle(old(selected), item.id)
      ensures !old(selectMode) ==> navigateTo == Some(PlayUrl(item)) && selected == old(selected)
      ensures history == old(history) && keyword == old(keyword) && selectMode == old(selectMode)
    {
      if selectMode {
        ToggleSelect(item.id);
        return None;
      }
      navigateTo := Some(PlayUrl(item));
    }
  }
}
