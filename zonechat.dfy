/**
 * The zone chat list: turning stored rows into messages with defaults,
 * paging older messages in, prepending realtime inserts without
 * duplicates, and the guards on loading more and on sending.
 */
module ZoneChat {
  import opened Wrappers

  /** `PAGE_SIZE`. */
  const PageSize: nat := 50

  /** The joined author profile of a stored message row; any field may be missing. */
  datatype AuthorRow = AuthorRow(
    nickname: Option<string>,
    avatarUrl: Option<string>,
    ring: Option<int>,
    karma: Option<int>)

  /** A stored message row as the message store returns it. */
  datatype Row = Row(
    id: string,
    userId: string,
    zoneId: string,
    text: string,
    createdAt: string,
    reactions: Option<map<string, int>>,
    subchannel: Option<string>,
    profiles: Option<AuthorRow>)

  datatype Author = Author(nickname: string, avatarUrl: Option<string>, ring: int, karma: int)

  /** A displayed message. */
  datatype Message = Message(
    id: string,
    userId: string,
    zoneId: string,
    text: string,
    createdAt: string,
    reactions: map<string, int>,
    subchannel: string,
    author: Author)

  /** `mapRow`: copy what the row has and fill every missing field with its default. */
  function MapRow(row: Row, subchannel: string): (m: Message)
    ensures m.id == row.id && m.userId == row.userId && m.zoneId == row.zoneId
    ensures m.text == row.text && m.createdAt == row.createdAt
    ensures m.reactions == (if row.reactions.Some? then row.reactions.value else map[])
    ensures m.subchannel == (if row.subchannel.Some? then row.subchannel.value else subchannel)
    ensures row.profiles.None? ==> m.author == Author("Unknown", None, 0, 0)
    ensures row.profiles.Some? ==>
      var a := row.profiles.value;
      && m.author.nickname == (if a.nickname.Some? then a.nickname.value else "Unknown")
      && m.author.avatarUrl == a.avatarUrl
      && m.author.ring == (if a.ring.Some? then a.ring.value else 0)
      && m.author.karma == (if a.karma.Some? then a.karma.value else 0)
  {
    var author := match row.profiles
      case None => Author("Unknown", None, 0, 0)
      case Some(a) => Author(a.nickname.GetOr("Unknown"), a.avatarUrl, a.ring.GetOr(0), a.karma.GetOr(0));
    Message(row.id, row.userId, row.zoneId, row.text, row.createdAt,
            row.reactions.GetOr(map[]), row.subchannel.GetOr(subchannel), author)
  }

  /** `rows.map(mapRow)`. */
  function MapRows(rows: seq<Row>, subchannel: string): (ms: seq<Message>)
    ensures |ms| == |rows|
    ensures forall i :: 0 <= i < |rows| ==> ms[i] == MapRow(rows[i], subchannel)
  {
    seq(|rows|, i requires 0 <= i < |rows| => MapRow(rows[i], subchannel))
  }

  /** `prev.some(m => m.id === id)`: some listed message has that id. */
  predicate HasId(prev: seq<Message>, id: string): (b: bool)
    ensures b <==> exists m :: m in prev && m.id == id
  {
    exists i :: 0 <= i < |prev| && prev[i].id == id
  }

  /** No two messages in the list share an id. */
  predicate UniqueIds(s: seq<Message>)
  {
    forall i, j :: 0 <= i < j < |s| ==> s[i].id != s[j].id
  }

  /** The realtime updater: ignore a message whose id is already listed, else put it first. */
  function PrependNew(prev: seq<Message>, m: Message): (r: seq<Message>)
    ensures HasId(prev, m.id) ==> r == prev
    ensures !HasId(prev, m.id) ==> r == [m] + prev
    ensures HasId(r, m.id)
  {
    if HasId(prev, m.id) then prev
    else
      assert ([m] + prev)[0].id == m.id;
      [m] + prev
  }

  /** Realtime inserts keep the ids unique. */
  lemma PrependNewKeepsUnique(prev: seq<Message>, m: Message)
    requires UniqueIds(prev)
    ensures UniqueIds(PrependNew(prev, m))
  {
    if !HasId(prev, m.id) {
      var r := [m] + prev;
      forall i, j | 0 <= i < j < |r| ensures r[i].id != r[j].id {
        if i == 0 {
          assert r[j] == prev[j - 1];
        } else {
          assert r[i] == prev[i - 1] && r[j] == prev[j - 1];
        }
      }
    }
  }

  /** Delivering the same realtime message twice has the effect of delivering it once. */
  lemma PrependNewIdempotent(prev: seq<Message>, m: Message)
    ensures PrependNew(PrependNew(prev, m), m) == PrependNew(prev, m)
  {
  }

  /** What the message store answers for one page request. */
  datatype PageResult =
    | Page(rows: Option<seq<Row>>)  // None: the store returned null data
    | PageError(message: string)

  /** `getZoneMessages(zoneId, subchannel, limit, offset)`, as seen by the hook. */
  type PageFetch = (string, string, nat, nat) -> PageResult

  /** A `sendMessage` call to the message store. */
  datatype SendRequest = SendRequest(userId: string, zoneId: string, text: string, subchannel: string)

  /** `sendMessage(...)` on the message store: an error message, or None on success. */
  type SendCall = SendRequest -> Option<string>

  /**
   * JavaScript's white space and line terminators, the characters `trim`
   * removes, by code point: tab to carriage return (9 to 13), space, no-break
   * space, ogham space mark, the spaces U+2000 to U+200A, the line and
   * paragraph separators, the narrow no-break and medium mathematical spaces,
   * the ideographic space and the byte order mark. Among the ASCII characters
   * they are exactly tab, line feed, vertical tab, form feed, carriage return
   * and space.
   */
  function IsJsSpace(ch: char): (b: bool)
    ensures ch as int < 128 ==> (b <==> 9 <= ch as int <= 13 || ch as int == 32)
  {
    var n := ch as int;
    (9 <= n <= 13) || n == 0x20 || n == 0xA0 || n == 0x1680 || (0x2000 <= n <= 0x200A)
    || n == 0x2028 || n == 0x2029 || n == 0x202F || n == 0x205F || n == 0x3000 || n == 0xFEFF
  }

  /** `trimStart`: drop the leading white space. */
  function TrimStart(s: string): (r: string)
    ensures |r| <= |s| && r == s[|s| - |r|..]
    ensures forall i :: 0 <= i < |s| - |r| ==> IsJsSpace(s[i])
    ensures r != [] ==> !IsJsSpace(r[0])
  {
    if s != [] && IsJsSpace(s[0]) then TrimStart(s[1..]) else s
  }

  /** `trimEnd`: drop the trailing white space. */
  function TrimEnd(s: string): (r: string)
    ensures |r| <= |s| && r == s[..|r|]
    ensures forall i :: |r| <= i < |s| ==> IsJsSpace(s[i])
    ensures r != [] ==> !IsJsSpace(r[|r| - 1])
  {
    if s != [] && IsJsSpace(s[|s| - 1]) then TrimEnd(s[..|s| - 1]) else s
  }

  /** A prefix of a suffix is a slice. */
  lemma SliceOfSuffix<T>(s: seq<T>, a: int, n: int)
    requires 0 <= a && 0 <= n && a + n <= |s|
    ensures s[a..][..n] == s[a..a + n]
  {
  }

  /**
   * White space dropped from the front (leaving `t`) and then from the back
   * (leaving `r`) leaves a slice of `s` with only white space outside it.
   */
  lemma TrimSlice(s: string, t: string, r: string)
    requires |t| <= |s| && t == s[|s| - |t|..]
    requires forall i :: 0 <= i < |s| - |t| ==> IsJsSpace(s[i])
    requires |r| <= |t| && r == t[..|r|]
    requires forall i :: |r| <= i < |t| ==> IsJsSpace(t[i])
    ensures exists a, b ::
      (0 <= a <= b <= |s| && r == s[a..b]
       && (forall i :: 0 <= i < a ==> IsJsSpace(s[i]))
       && (forall i :: b <= i < |s| ==> IsJsSpace(s[i])))
  {
    var a := |s| - |t|;
    SliceOfSuffix(s, a, |r|);
    forall i | a + |r| <= i < |s| ensures IsJsSpace(s[i]) {
      assert s[i] == t[i - a];
    }
    assert 0 <= a <= a + |r| <= |s| && r == s[a..a + |r|];
  }

  /**
   * `trim`: drop the white space at both ends. The result is the slice
   * `s[a..b]` with only white space outside it, and it neither starts nor
   * ends with white space.
   */
  function Trim(s: string): (r: string)
    ensures exists a, b ::
      (0 <= a <= b <= |s| && r == s[a..b]
       && (forall i :: 0 <= i < a ==> IsJsSpace(s[i]))
       && (forall i :: b <= i < |s| ==> IsJsSpace(s[i])))
    ensures r != [] ==> !IsJsSpace(r[0]) && !IsJsSpace(r[|r| - 1])
  {
    var t := TrimStart(s);
    var r := TrimEnd(t);
    TrimSlice(s, t, r);
    assert r != [] ==> r[0] == t[0];
    r
  }

  /** `!text.trim()`: the text is empty after trimming, that is, it is all white space. */
  predicate IsBlank(text: string): (b: bool)
    ensures b <==> forall i :: 0 <= i < |text| ==> IsJsSpace(text[i])
  {
    var t := TrimStart(text);
    assert t == [] || !IsJsSpace(text[|text| - |t|]);
    Trim(text) == ""
  }

  /**
   * The guard of `sendMessage`: the request it makes, or None when it
   * returns early. A request is made exactly when there is a user, the zone
   * is truthy and the text is not blank; it carries the untrimmed text.
   */
  function SendGuard(user: Option<string>, zoneId: Option<string>, subchannel: string, text: string)
    : (r: Option<SendRequest>)
    ensures r.Some? <==> user.Some? && zoneId != None && zoneId != Some("") && !IsBlank(text)
    ensures r.Some? ==> r.value == SendRequest(user.value, zoneId.value, text, subchannel)
    ensures r.Some? ==> (exists i :: 0 <= i < |text| && !IsJsSpace(text[i]))
  {
    if user.None? || zoneId.None? || zoneId.value == "" || IsBlank(text) then None
    else Some(SendRequest(user.value, zoneId.value, text, subchannel))
  }

  /** The state of the hook for one zone and subchannel. */
  class ZoneChatState {
    var zoneId: Option<string>
    var subchannel: string
    var messages: seq<Message>
    var loading: bool
    var sending: bool
    var error: Option<string>
    var hasMore: bool
    var offset: nat

    /** `zoneId` is truthy: present and not the empty string. */
    predicate HasZone(): (b: bool)
      reads this
      ensures !b <==> zoneId == None || zoneId == Some("")
    {
      zoneId.Some? && zoneId.value != ""
    }

    constructor (zoneId: Option<string>, subchannel: string := "general")
      ensures this.zoneId == zoneId && this.subchannel == subchannel
      ensures messages == [] && loading && !sending && error == None && hasMore && offset == 0
    {
      this.zoneId := zoneId;
      this.subchannel := subchannel;
      messages := [];
      loading := true;
      sending := false;
      error := None;
      hasMore := true;
      offset := 0;
    }

    /**
     * `loadMessages(reset)`: fetch one page at offset 0 (reset) or at the
     * stored offset, then replace or extend the list.
     */
    method LoadMessages(reset: bool, fetch: PageFetch)
      modifies this
      ensures zoneId == old(zoneId) && subchannel == old(subchannel)
      ensures !HasZone() ==>
        && messages == old(messages) && offset == old(offset) && hasMore == old(hasMore)
        && loading == old(loading) && error == old(error)
      ensures sending == old(sending)
      ensures HasZone() ==> !loading
      ensures HasZone() ==>
        var requested := if reset then 0 else old(offset);
        match fetch(zoneId.value, subchannel, PageSize, requested)
        case PageError(msg) =>
          && error == Some(msg)
          && messages == old(messages) && offset == old(offset) && hasMore == old(hasMore)
        case Page(data) =>
          var page := MapRows(data.GetOr([]), subchannel);
          && error == None
          && messages == (if reset then page else old(messages) + page)
          && offset == requested + |page|
          && (hasMore <==> |data.GetOr([])| == PageSize)
    {
      if !HasZone() {
        return;
      }
      loading := true;
      error := None;
      var requested := if reset then 0 else offset;
      var result := fetch(zoneId.value, subchannel, PageSize, requested);
      match result
      case PageError(msg) =>
        error := Some(msg);
        loading := false;
      case Page(data) =>
        var rows := data.GetOr([]);
        var page := MapRows(rows, subchannel);
        if reset {
          messages := page;
          offset := |page|;
        } else {
          messages := messages + page;
          offset := requested + |page|;
        }
        hasMore := |rows| == PageSize;
        loading := false;
    }

    /** The mount effect: with no zone the list is cleared, otherwise it is reloaded from the start. */
    method Open(fetch: PageFetch)
      modifies this
      ensures zoneId == old(zoneId) && subchannel == old(subchannel)
      ensures !HasZone() ==>
        && messages == [] && offset == old(offset) && hasMore == old(hasMore)
        && loading == old(loading) && error == old(error)
      ensures sending == old(sending)
      ensures HasZone() ==> !loading
      ensures HasZone() ==>
        match fetch(zoneId.value, subchannel, PageSize, 0)
        case PageError(msg) =>
          && error == Some(msg)
          && messages == old(messages) && offset == old(offset) && hasMore == old(hasMore)
        case Page(data) =>
          && error == None
          && messages == MapRows(data.GetOr([]), subchannel)
          && offset == |messages|
          && (hasMore <==> |data.GetOr([])| == PageSize)
    {
      if !HasZone() {
        messages := [];
        return;
      }
      LoadMessages(true, fetch);
    }

    /**
     * The hook re-rendered with `zoneId`/`subchannel` arguments. The mount
     * effect depends on exactly that pair, so the same pair changes nothing.
     * For another pair the effect runs again, and the list, the offset,
     * `hasMore` and the error carry over from the old pair until a load
     * replaces them: a failed reset load leaves the old zone's messages and
     * offset in place, and switching to no zone keeps the offset and `hasMore`.
     */
    method SwitchZone(newZoneId: Option<string>, newSubchannel: string, fetch: PageFetch)
      modifies this
      ensures zoneId == newZoneId && subchannel == newSubchannel
      ensures sending == old(sending)
      ensures newZoneId == old(zoneId) && newSubchannel == old(subchannel) ==>
        && messages == old(messages) && offset == old(offset) && hasMore == old(hasMore)
        && loading == old(loading) && error == old(error)
      ensures (newZoneId != old(zoneId) || newSubchannel != old(subchannel)) && !HasZone() ==>
        && messages == [] && offset == old(offset) && hasMore == old(hasMore)
        && loading == old(loading) && error == old(error)
      ensures (newZoneId != old(zoneId) || newSubchannel != old(subchannel)) && HasZone() ==> !loading
      ensures (newZoneId != old(zoneId) || newSubchannel != old(subchannel)) && HasZone() ==>
        match fetch(zoneId.value, subchannel, PageSize, 0)
        case PageError(msg) =>
          && error == Some(msg)
          && messages == old(messages) && offset == old(offset) && hasMore == old(hasMore)
        case Page(data) =>
          && error == None
          && messages == MapRows(data.GetOr([]), subchannel)
          && offset == |messages|
          && (hasMore <==> |data.GetOr([])| == PageSize)
    {
      if newZoneId == zoneId && newSubchannel == subchannel {
        return;
      }
      zoneId := newZoneId;
      subchannel := newSubchannel;
      Open(fetch);
    }

    /** The realtime subscription's callback for a newly inserted row. */
    method OnInsert(row: Row)
      modifies this
      ensures zoneId == old(zoneId) && subchannel == old(subchannel)
      ensures messages == PrependNew(old(messages), MapRow(row, subchannel))
      ensures UniqueIds(old(messages)) ==> UniqueIds(messages)
      ensures offset == old(offset) && hasMore == old(hasMore) && loading == old(loading)
      ensures error == old(error) && sending == old(sending)
    {
      if UniqueIds(messages) {
        PrependNewKeepsUnique(messages, MapRow(row, subchannel));
      }
      messages := PrependNew(messages, MapRow(row, subchannel));
    }

    /**
     * `loadMore`: nothing while a load is running or when the last page was
     * short (and, inside the load, nothing without a zone); otherwise the
     * next page is appended.
     */
    method LoadMore(fetch: PageFetch)
      modifies this
      ensures zoneId == old(zoneId) && subchannel == old(subchannel)
      ensures !old(hasMore) || old(loading) || !HasZone() ==>
        && messages == old(messages) && offset == old(offset) && hasMore == old(hasMore)
        && loading == old(loading) && error == old(error)
      ensures old(hasMore) && !old(loading) && HasZone() ==> !loading
      ensures old(hasMore) && !old(loading) && HasZone() ==>
        match fetch(zoneId.value, subchannel, PageSize, old(offset))
        case PageError(msg) =>
          && error == Some(msg)
          && messages == old(messages) && offset == old(offset) && hasMore == old(hasMore)
        case Page(data) =>
          var page := MapRows(data.GetOr([]), subchannel);
          && error == None
          && messages == old(messages) + page
          && offset == old(offset) + |page|
          && (hasMore <==> |data.GetOr([])| == PageSize)
      ensures sending == old(sending)
    {
      if !hasMore || loading {
        return;
      }
      LoadMessages(false, fetch);
    }

    /** The `sending` flag around one store call, and the error it reported. */
    method Report(err: Option<string>)
      modifies this
      ensures error == err && !sending
      ensures zoneId == old(zoneId) && subchannel == old(subchannel)
      ensures messages == old(messages) && offset == old(offset) && hasMore == old(hasMore)
      ensures loading == old(loading)
    {
      sending := true;  // setSending(true) before the call
      error := None;    // setError(null) before the call
      error := err;     // the error was just cleared, so this sets only a reported one
      sending := false;
    }

    /**
     * `sendMessage`: nothing without a user, without a zone, or for blank
     * text; otherwise one call to the message store, whose error is kept.
     * The list itself changes only when the realtime insert arrives.
     */
    method SendMessage(user: Option<string>, text: string, send: SendCall)
      returns (request: Option<SendRequest>)
      modifies this
      ensures zoneId == old(zoneId) && subchannel == old(subchannel)
      ensures request == SendGuard(user, zoneId, subchannel, text)
      ensures request.Some? ==> error == send(request.value) && !sending
      ensures request.None? ==> error == old(error) && sending == old(sending)
      ensures messages == old(messages) && offset == old(offset) && hasMore == old(hasMore)
      ensures loading == old(loading)
    {
      request := SendGuard(user, zoneId, subchannel, text);
      if request.None? {
        return;
      }
      var err := send(request.value);
      Report(err);
    }
  }
}
