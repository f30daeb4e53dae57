/** ChatHistoryServiceImpl: replaying an app's stored conversation into the
    model's chat memory, and the guards of the history page and of the
    delete-by-app operation. */
module ChatHistoryService {
  import opened Common
  import opened Entities
  import opened MessageType

  // ----------------------------------------------------------- the query

  /** The table's rows are in `createTime` order: each row is stamped when
      it is written and appended after the rows written before it. */
  predicate Chronological(rows: seq<ChatHistory>)
  {
    forall i, j :: 0 <= i < j < |rows| ==> rows[i].createTime <= rows[j].createTime
  }

  /** The rows of one app, in table order. */
  function ForApp(rows: seq<ChatHistory>, appId: int): (r: seq<ChatHistory>)
    ensures |r| <= |rows|
    ensures forall k :: 0 <= k < |r| ==> r[k].appId == appId
    decreases |rows|
  {
    if rows == [] then []
    else if rows[|rows| - 1].appId == appId then ForApp(rows[..|rows| - 1], appId) + [rows[|rows| - 1]]
    else ForApp(rows[..|rows| - 1], appId)
  }

  /** Filtering keeps table order: the app's rows of two runs of rows are
      those of the first run followed by those of the second, and a single
      row is kept exactly when it belongs to the app. */
  lemma {:induction false} ForAppAppend(a: seq<ChatHistory>, b: seq<ChatHistory>, appId: int)
    ensures ForApp(a + b, appId) == ForApp(a, appId) + ForApp(b, appId)
    ensures |b| == 1 ==> ForApp(b, appId) == if b[0].appId == appId then b else []
    decreases |b|
  {
    if b == [] {
      assert a + b == a;
    } else {
      var b' := b[..|b| - 1];
      assert (a + b)[..|a + b| - 1] == a + b';
      assert (a + b)[|a + b| - 1] == b[|b| - 1];
      ForAppAppend(a, b', appId);
      if |b| == 1 {
        assert b' == [];
      }
    }
  }

  /** A row the filter keeps is no later than a bound every row keeps. */
  lemma {:induction false} ForAppNoLater(rows: seq<ChatHistory>, appId: int, t: int)
    requires forall k :: 0 <= k < |rows| ==> rows[k].createTime <= t
    ensures forall k :: 0 <= k < |ForApp(rows, appId)| ==> ForApp(rows, appId)[k].createTime <= t
    decreases |rows|
  {
    if rows != [] {
      var init := rows[..|rows| - 1];
      assert forall k :: 0 <= k < |init| ==> init[k] == rows[k];
      ForAppNoLater(init, appId, t);
    }
  }

  /** The app filter keeps the table's `createTime` order. */
  lemma {:induction false} ForAppChronological(rows: seq<ChatHistory>, appId: int)
    requires Chronological(rows)
    ensures Chronological(ForApp(rows, appId))
    decreases |rows|
  {
    if rows != [] {
      var init := rows[..|rows| - 1];
      var last := rows[|rows| - 1];
      assert forall k :: 0 <= k < |init| ==> init[k] == rows[k];
      ForAppChronological(init, appId);
      ForAppNoLater(init, appId, last.createTime);
    }
  }

  /** The rows of other apps, the ones a delete by app keeps. */
  function WithoutApp(rows: seq<ChatHistory>, appId: int): (r: seq<ChatHistory>)
    ensures |r| <= |rows|
    ensures forall k :: 0 <= k < |r| ==> r[k].appId != appId
    decreases |rows|
  {
    if rows == [] then []
    else if rows[|rows| - 1].appId != appId then WithoutApp(rows[..|rows| - 1], appId) + [rows[|rows| - 1]]
    else WithoutApp(rows[..|rows| - 1], appId)
  }

  /** A row a delete keeps is no later than a bound every row keeps. */
  lemma {:induction false} WithoutAppNoLater(rows: seq<ChatHistory>, appId: int, t: int)
    requires forall k :: 0 <= k < |rows| ==> rows[k].createTime <= t
    ensures forall k :: 0 <= k < |WithoutApp(rows, appId)| ==> WithoutApp(rows, appId)[k].createTime <= t
    decreases |rows|
  {
    if rows != [] {
      var init := rows[..|rows| - 1];
      assert forall k :: 0 <= k < |init| ==> init[k] == rows[k];
      WithoutAppNoLater(init, appId, t);
    }
  }

  /** A delete by app keeps the table's `createTime` order. */
  lemma {:induction false} WithoutAppChronological(rows: seq<ChatHistory>, appId: int)
    requires Chronological(rows)
    ensures Chronological(WithoutApp(rows, appId))
    decreases |rows|
  {
    if rows != [] {
      var init := rows[..|rows| - 1];
      var last := rows[|rows| - 1];
      assert forall k :: 0 <= k < |init| ==> init[k] == rows[k];
      WithoutAppChronological(init, appId);
      WithoutAppNoLater(init, appId, last.createTime);
    }
  }

  /** `List.reversed()`. */
  function Reverse<T>(s: seq<T>): (r: seq<T>)
    ensures |r| == |s|
    ensures forall k :: 0 <= k < |s| ==> r[k] == s[|s| - 1 - k]
  {
    seq(|s|, k requires 0 <= k < |s| => s[|s| - 1 - k])
  }

  function Min(a: int, b: int): int { if a <= b then a else b }

  /** `eq(appId).orderBy(createTime, desc).limit(1, maxCount)`: newest
      first, the newest row skipped, at most maxCount rows. */
  function HistoryQuery(rows: seq<ChatHistory>, appId: int, maxCount: nat): (q: seq<ChatHistory>)
    ensures |q| <= maxCount
    ensures forall k :: 0 <= k < |q| ==> q[k].appId == appId
  {
    var newestFirst := Reverse(ForApp(rows, appId));
    if newestFirst == [] then [] else newestFirst[1..][..Min(maxCount, |newestFirst| - 1)]
  }

  /** The query returns at most maxCount rows of the app: the ones just
      before its newest row, and read back in reverse they are in the order
      they were written. */
  lemma HistoryQueryWindow(rows: seq<ChatHistory>, appId: int, maxCount: nat)
    ensures var q := HistoryQuery(rows, appId, maxCount);
      var all := ForApp(rows, appId);
      && |q| <= maxCount
      && |q| == (if all == [] then 0 else Min(maxCount, |all| - 1))
      && (all != [] ==> Reverse(q) == all[|all| - 1 - |q|..|all| - 1])
      && forall k :: 0 <= k < |q| ==> q[k].appId == appId
  {
    var q := HistoryQuery(rows, appId, maxCount);
    var all := ForApp(rows, appId);
    if all != [] {
      var n := |all|;
      var newestFirst := Reverse(all);
      assert q == newestFirst[1..][..Min(maxCount, n - 1)];
      forall k | 0 <= k < |q| ensures q[k] == all[n - 2 - k] {
        assert q[k] == newestFirst[1 + k];
      }
      WindowReversed(all, q);
      forall k | 0 <= k < |q| ensures q[k].appId == appId {
        assert q[k] == all[n - 2 - k];
      }
    }
  }

  /** On a table in `createTime` order the query is what the SQL asks for:
      its rows run from newest to oldest, the row it skips is the app's
      newest, and every row of the app it leaves out is no newer than any
      row it returns. Rows with equal `createTime` are ordered by their place
      in the table, the later one counting as newer. */
  lemma HistoryQueryByCreateTime(rows: seq<ChatHistory>, appId: int, maxCount: nat)
    requires Chronological(rows)
    ensures var q := HistoryQuery(rows, appId, maxCount);
      var all := ForApp(rows, appId);
      && (forall i, j :: 0 <= i < j < |q| ==> q[i].createTime >= q[j].createTime)
      && (all != [] ==> forall k :: 0 <= k < |all| ==> all[k].createTime <= all[|all| - 1].createTime)
      && (forall k, i :: 0 <= k < |all| - 1 - |q| && 0 <= i < |q| ==> all[k].createTime <= q[i].createTime)
  {
    var q := HistoryQuery(rows, appId, maxCount);
    var all := ForApp(rows, appId);
    ForAppChronological(rows, appId);
    if all != [] {
      var n := |all|;
      var newestFirst := Reverse(all);
      assert q == newestFirst[1..][..Min(maxCount, n - 1)];
      forall k | 0 <= k < |q| ensures q[k] == all[n - 2 - k] {
        assert q[k] == newestFirst[1 + k];
      }
    }
  }

  /** A run read backwards from just before the last element is, reversed,
      the slice that ends there. */
  lemma WindowReversed<T>(all: seq<T>, q: seq<T>)
    requires |q| < |all|
    requires forall k :: 0 <= k < |q| ==> q[k] == all[|all| - 2 - k]
    ensures Reverse(q) == all[|all| - 1 - |q|..|all| - 1]
  {
    var n := |all|;
    var w := all[n - 1 - |q|..n - 1];
    forall k | 0 <= k < |q| ensures Reverse(q)[k] == w[k] {
      var j := |q| - 1 - k;
      assert Reverse(q)[k] == q[j];
      assert q[j] == all[n - 2 - j];
    }
  }

  // --------------------------------------------------------- the memory

  /** The two message kinds LangChain4j's chat memory receives here. */
  datatype ChatMessage = UserMessage(text: string) | AiMessage(text: string)

  /** The memory one row becomes, if any: user and AI rows keep their role,
      every other type is skipped. */
  function Turn(h: ChatHistory): (m: Option<ChatMessage>)
    ensures m.Some? <==> GetEnumByValue(Some(h.messageType)) in {Some(USER), Some(AI)}
    ensures m.Some? ==> m.value.text == h.message
    ensures m.Some? ==> (m.value.UserMessage? <==> h.messageType == "user")
  {
    GetEnumByValueNullIff(Some(h.messageType));
    if h.messageType == USER.Value() then Some(UserMessage(h.message))
    else if h.messageType == AI.Value() then Some(AiMessage(h.message))
    else None
  }

  /** The messages a run of rows adds to memory, in row order. */
  function Replay(rows: seq<ChatHistory>): (ms: seq<ChatMessage>)
    ensures ms == [] <==> forall k :: 0 <= k < |rows| ==> Turn(rows[k]).None?
  {
    if rows == [] then []
    else
      var last := rows[|rows| - 1];
      var init := rows[..|rows| - 1];
      assert forall k :: 0 <= k < |init| ==> init[k] == rows[k];
      Replay(init) + (if Turn(last).Some? then [Turn(last).value] else [])
  }

  /** Replaying two runs one after the other is replaying each. */
  lemma {:induction false} ReplayAppend(a: seq<ChatHistory>, b: seq<ChatHistory>)
    ensures Replay(a + b) == Replay(a) + Replay(b)
    decreases |b|
  {
    if b == [] {
      assert a + b == a;
    } else {
      var b' := b[..|b| - 1];
      var last := b[|b| - 1];
      var tail := if Turn(last).Some? then [Turn(last).value] else [];
      assert (a + b)[..|a + b| - 1] == a + b';
      assert (a + b)[|a + b| - 1] == last;
      assert Replay(a + b) == Replay(a + b') + tail;
      ReplayAppend(a, b');
      assert Replay(b) == Replay(b') + tail;
    }
  }

  /** At most one message per row, so a replay never loads more than the
      query returned. */
  lemma {:induction false} ReplayAtMostRows(rows: seq<ChatHistory>)
    ensures |Replay(rows)| <= |rows|
    decreases |rows|
  {
    if rows != [] {
      ReplayAtMostRows(rows[..|rows| - 1]);
    }
  }

  /** The replay of each row is its own turn, so the memory is exactly the
      user and AI rows, in order, each with its role. */
  lemma {:induction false} ReplayOfRows(rows: seq<ChatHistory>)
    ensures forall k :: 0 <= k < |rows| && Turn(rows[k]).None? ==>
      Replay(rows[..k + 1]) == Replay(rows[..k])
    ensures forall k :: 0 <= k < |rows| && Turn(rows[k]).Some? ==>
      Replay(rows[..k + 1]) == Replay(rows[..k]) + [Turn(rows[k]).value]
  {
    forall k | 0 <= k < |rows| ensures rows[..k + 1][..k] == rows[..k] {
    }
  }

  /** LangChain4j's message-window memory, without its size bound. */
  class ChatMemory {
    var messages: seq<ChatMessage>

    constructor (messages0: seq<ChatMessage>)
      ensures messages == messages0
    {
      messages := messages0;
    }

    method Clear()
      modifies this
      ensures messages == []
    {
      messages := [];
    }

    method Add(m: ChatMessage)
      modifies this
      ensures messages == old(messages) + [m]
    {
      messages := messages + [m];
    }
  }

  // ------------------------------------------------------------ the table

  class ChatHistoryTable {
    var rows: seq<ChatHistory>
    /** When set, every query throws (the database is unreachable). */
    const unavailable: bool

    /** The rows are kept in the order they were written, `createTime` order. */
    ghost predicate Valid()
      reads this
    {
      Chronological(rows)
    }

    constructor (rows0: seq<ChatHistory>, unavailable: bool)
      requires Chronological(rows0)
      ensures Valid()
      ensures rows == rows0 && this.unavailable == unavailable
    {
      rows := rows0;
      this.unavailable := unavailable;
    }

    /** `loadChatHistoryToMemory`: returns how many messages were loaded. */
    method LoadChatHistoryToMemory(appId: int, memory: ChatMemory, maxCount: nat) returns (count: int)
      modifies memory
      ensures var q := HistoryQuery(rows, appId, maxCount);
        if unavailable || q == [] then count == 0 && memory.messages == old(memory.messages)
        else memory.messages == Replay(Reverse(q)) && count == |memory.messages|
      ensures 0 <= count <= maxCount
    {
      if unavailable {
        return 0;
      }
      var history := HistoryQuery(rows, appId, maxCount);
      HistoryQueryWindow(rows, appId, maxCount);
      if |history| == 0 {
        return 0;
      }
      history := Reverse(history);
      var loaded := 0;
      memory.Clear();
      ReplayOfRows(history);
      var i := 0;
      while i < |history|
        invariant 0 <= i <= |history|
        invariant memory.messages == Replay(history[..i])
        invariant loaded == |memory.messages|
      {
        var h := history[i];
        if h.messageType == USER.Value() {
          memory.Add(UserMessage(h.message));
          loaded := loaded + 1;
        } else if h.messageType == AI.Value() {
          memory.Add(AiMessage(h.message));
          loaded := loaded + 1;
        }
        i := i + 1;
      }
      assert history[..i] == history;
      ReplayAtMostRows(history);
      count := loaded;
    }

    /** `deleteByAppId`: true when at least one row was removed. */
    method DeleteByAppId(appId: Option<int>) returns (r: Result<bool>)
      requires Valid()
      modifies this
      ensures Valid()
      ensures appId.None? ==> r == Fail(Business(ParamsError, "appId不能为空")) && rows == old(rows)
      ensures appId.Some? ==> rows == WithoutApp(old(rows), appId.value) && r == Ok(ForApp(old(rows), appId.value) != [])
    {
      if appId.None? {
        return Fail(Business(ParamsError, "appId不能为空"));
      }
      var removed := ForApp(rows, appId.value);
      WithoutAppChronological(rows, appId.value);
      rows := WithoutApp(rows, appId.value);
      r := Ok(|removed| > 0);
    }
  }

  /** A delete by app splits the table: every row is either removed (it
      belongs to the app) or kept. */
  lemma {:induction false} DeleteSplitsRows(rows: seq<ChatHistory>, appId: int)
    ensures |ForApp(rows, appId)| + |WithoutApp(rows, appId)| == |rows|
    ensures multiset(ForApp(rows, appId)) + multiset(WithoutApp(rows, appId)) == multiset(rows)
    decreases |rows|
  {
    if rows != [] {
      var init := rows[..|rows| - 1];
      DeleteSplitsRows(init, appId);
      assert rows == init + [rows[|rows| - 1]];
    }
  }

  // ------------------------------------------------- the history page guard

  /** The checks `pageChatHistory` runs before querying, in order. */
  function PageGuard(appId: Option<int>, loginUser: Option<User>, apps: map<int, App>): (e: Option<Error>)
    ensures e.None? <==>
      && appId.Some? && loginUser.Some? && appId.value in apps
      && (loginUser.value.userRole == AdminRole || loginUser.value.id == apps[appId.value].userId)
  {
    if appId.None? then Some(Business(ParamsError, "appId为空"))
    else if loginUser.None? then Some(Business(ParamsError, "登陆用户信息为空"))
    else if appId.value !in apps then Some(Business(OperationError, "应用不存在"))
    else
      var isAdmin := loginUser.value.userRole == AdminRole;
      var isCreator := loginUser.value.id == apps[appId.value].userId;
      if !isAdmin && !isCreator then Some(Business(NoAuthError, "不是创建用户或管理员")) else None
  }

  /** Which error the page guard raises: the first failing check's. */
  lemma PageGuardFirstFailure(appId: Option<int>, loginUser: Option<User>, apps: map<int, App>)
    ensures appId.None? ==> PageGuard(appId, loginUser, apps).value.code == ParamsError
    ensures appId.Some? && loginUser.None? ==> PageGuard(appId, loginUser, apps).value.code == ParamsError
    ensures appId.Some? && loginUser.Some? && appId.value !in apps ==>
      PageGuard(appId, loginUser, apps).value.code == OperationError
    ensures (&& appId.Some? && loginUser.Some? && appId.value in apps
             && loginUser.value.userRole != AdminRole && loginUser.value.id != apps[appId.value].userId) ==>
      PageGuard(appId, loginUser, apps).value.code == NoAuthError
  {
  }
}
