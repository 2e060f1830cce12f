/** The bot's views and callbacks: `/start`, the source menu, the source list
    and the subscription button. Each is modelled as the sequence of calls it
    makes on the repositories and the Telegram API, in order, together with
    the error it returns. The outcomes of those calls (a repository error, a
    failed send) are parameters. */
module Service {
  import opened Wrappers
  import opened Models
  import opened Telegram
  import opened GoStrings
  import opened Strconv
  import opened SourceSort

  /** A call a view makes on the outside world. */
  datatype Effect =
    | AddTgUser(user: TgUser)                        // UserRepository.AddTgUser
    | AddSubscription(userId: int, sourceId: int)    // SubsRepo.Add
    | Send(msg: OutMessage)                          // bot.Send

  /** What a view or callback did, and the error it returned (None for nil). */
  datatype ViewResult = ViewResult(effects: seq<Effect>, err: Option<Error>)

  const AddSourcePrefix: string := "source_add"
  const Greeting: string := "Hi there!"
  const ChooseSourcePrompt: string := "На какую категорию вы хотите подписаться?"

  /** The callback data of the menu button for source `id`:
      `fmt.Sprintf("source_add:%d", id)`. It has the shape the callback's
      parse accepts: the prefix, one colon, and no colon after it. */
  function EncodeAddSource(id: int): (data: string)
    ensures AddSourceShape(data)
    ensures data[|AddSourcePrefix| + 1..] == FormatInt(id)
  {
    FormatIntDigitsOnly(id, ':');
    var data := AddSourcePrefix + ":" + FormatInt(id);
    assert data[..|AddSourcePrefix| + 1] == AddSourcePrefix + ":";
    assert data[|AddSourcePrefix| + 1..] == FormatInt(id);
    data
  }

  /** The parse at the start of CallbackAddSource: split on ':', demand
      exactly two pieces of which the first is "source_add", then `Atoi` the
      second. */
  function ParseAddSource(data: string): (r: Result<int, Error>)
    ensures r.Success? ==> IsInt64(r.value)
    ensures r == Failure(InvalidCallbackData) <==>
              |Split(data, ':')| != 2 || Split(data, ':')[0] != AddSourcePrefix
  {
    var parts := Split(data, ':');
    if |parts| != 2 || parts[0] != AddSourcePrefix then Failure(InvalidCallbackData)
    else match Atoi(parts[1])
      case Failure(e) => Failure(Num(e))
      case Success(id) => Success(id)
  }

  /** The shape ParseAddSource accepts before it looks at the number: the
      prefix, one colon, and a tail with no further colon. */
  predicate AddSourceShape(data: string)
  {
    |data| >= |AddSourcePrefix| + 1 && data[..|AddSourcePrefix| + 1] == AddSourcePrefix + ":"
      && ':' !in data[|AddSourcePrefix| + 1..]
  }

  /** ParseAddSource described without Split: data of the right shape is
      decided by `Atoi` on its tail, anything else is invalid. */
  lemma ParseAddSourceByShape(data: string)
    ensures !AddSourceShape(data) ==> ParseAddSource(data) == Failure(InvalidCallbackData)
    ensures AddSourceShape(data) ==>
              ParseAddSource(data) == match Atoi(data[|AddSourcePrefix| + 1..])
                                      case Failure(e) => Failure(Num(e))
                                      case Success(id) => Success(id)
  {
    var parts := Split(data, ':');
    var n := |AddSourcePrefix|;
    if AddSourceShape(data) {
      var tail := data[n + 1..];
      assert data == AddSourcePrefix + [':'] + tail;
      SplitAtFirstSeparator(AddSourcePrefix, ':', tail);
      SplitNoSeparator(tail, ':');
    } else if |parts| == 2 && parts[0] == AddSourcePrefix {
      SplitJoin(data, ':');
      SplitPiecesHaveNoSeparator(data, ':');
      assert false;
    }
  }

  /** Round trip: the data of the button for any 64-bit source id parses back
      to that id. */
  lemma {:induction false} ParseEncodeAddSource(id: int)
    requires IsInt64(id)
    ensures ParseAddSource(EncodeAddSource(id)) == Success(id)
  {
    var digits := FormatInt(id);
    FormatIntDigitsOnly(id, ':');
    SplitAtFirstSeparator(AddSourcePrefix, ':', digits);
    assert EncodeAddSource(id) == AddSourcePrefix + [':'] + digits;
    SplitNoSeparator(digits, ':');
    AtoiFormatInt(id);
  }

  /** "source_add:" with nothing after the colon is rejected by Atoi. */
  lemma ParseAddSourceEmptyId()
    ensures ParseAddSource("source_add:") == Failure(Num(NumError("Atoi", "", ErrSyntax)))
  {
    ParseAddSourceByShape("source_add:");
    assert "source_add:"[11..] == "";
  }

  const ConfirmationPrefix: string := "Вы успешно подписались на источник с ID "

  /** The confirmation text: a fixed sentence ending in the id, written so
      that `Atoi` reads the id back. */
  function Confirmation(id: int): (text: string)
    ensures |text| > |ConfirmationPrefix| && text[..|ConfirmationPrefix|] == ConfirmationPrefix
    ensures IsInt64(id) ==> Atoi(text[|ConfirmationPrefix|..]) == Success(id)
  {
    var text := ConfirmationPrefix + FormatInt(id);
    assert text[..|ConfirmationPrefix|] == ConfirmationPrefix;
    assert text[|ConfirmationPrefix|..] == FormatInt(id);
    assert IsInt64(id) ==> Atoi(FormatInt(id)) == Success(id) by {
      if IsInt64(id) { AtoiFormatInt(id); }
    }
    text
  }

  /** `CallbackAddSource(subsRepo)` applied to a pressed button. A parse
      failure returns its error with nothing done; otherwise the one
      subscription (chat, id) is added, and only if that succeeds is the
      confirmation sent, whose error is the result. */
  function CallbackAddSource(cb: CallbackQuery, subsErr: Option<Error>, sendErr: Option<Error>): (r: ViewResult)
    ensures ParseAddSource(cb.data).Failure? ==> r == ViewResult([], Some(ParseAddSource(cb.data).error))
    ensures ParseAddSource(cb.data).Success? ==>
              var id := ParseAddSource(cb.data).value;
              && |r.effects| >= 1 && r.effects[0] == AddSubscription(cb.chatId, id)
              && (subsErr.Some? ==> r == ViewResult([AddSubscription(cb.chatId, id)], subsErr))
              && (subsErr.None? ==> r.effects[1..] == [Send(NewMessage(cb.chatId, Confirmation(id)))] && r.err == sendErr)
    ensures r.err.None? ==> subsErr.None? && sendErr.None?
  {
    match ParseAddSource(cb.data)
    case Failure(e) => ViewResult([], Some(e))
    case Success(id) =>
      var add := AddSubscription(cb.chatId, id);
      if subsErr.Some? then ViewResult([add], subsErr)
      else ViewResult([add, Send(NewMessage(cb.chatId, Confirmation(id)))], sendErr)
  }

  /** Pressing the menu button of source `id` subscribes the chat to `id`. */
  lemma CallbackAddSourceOfButton(id: int, chatId: int, sendErr: Option<Error>)
    requires IsInt64(id)
    ensures CallbackAddSource(CallbackQuery(EncodeAddSource(id), chatId), None, sendErr)
            == ViewResult([AddSubscription(chatId, id), Send(NewMessage(chatId, Confirmation(id)))], sendErr)
  {
    ParseEncodeAddSource(id);
  }

  /** `CmdStart(userRepo)`: register the user, then greet. A failed insert is
      returned at once and no greeting is sent. */
  function CmdStart(m: Message, addUserErr: Option<Error>, sendErr: Option<Error>): (r: ViewResult)
    ensures |r.effects| >= 1 && r.effects[0] == AddTgUser(TgUser(m.chatId, m.fromUserName))
    ensures addUserErr.Some? ==> r == ViewResult([AddTgUser(TgUser(m.chatId, m.fromUserName))], addUserErr)
    ensures addUserErr.None? ==> r.effects[1..] == [Send(NewMessage(m.chatId, Greeting))] && r.err == sendErr
  {
    var add := AddTgUser(TgUser(m.chatId, m.fromUserName));
    if addUserErr.Some? then ViewResult([add], addUserErr)
    else ViewResult([add, Send(NewMessage(m.chatId, Greeting))], sendErr)
  }

  /** `CmdAddSource(sourceRepo)`: a menu with one row per source, holding one
      button labelled with the source's name whose data is
      "source_add:<id>", in the repository's order. The send's error is
      dropped: the result is nil once the sources were read. */
  method CmdAddSource(m: Message, sources: Result<seq<Source>, Error>, sendErr: Option<Error>)
    returns (r: ViewResult)
    ensures sources.Failure? ==> r == ViewResult([], Some(sources.error))
    ensures sources.Success? ==>
              && r.err == None && |r.effects| == 1 && r.effects[0].Send?
              && var msg := r.effects[0].msg;
              && msg.chatId == m.chatId && msg.text == ChooseSourcePrompt && !msg.markdownV2
              && |msg.keyboard| == |sources.value|
              && forall i :: 0 <= i < |sources.value| ==>
                   msg.keyboard[i] == [Button(sources.value[i].name, EncodeAddSource(sources.value[i].id))]
  {
    match sources {
      case Failure(e) =>
        r := ViewResult([], Some(e));
      case Success(list) =>
        var rows: seq<seq<Button>> := [];
        for i := 0 to |list|
          invariant |rows| == i
          invariant forall k :: 0 <= k < i ==> rows[k] == [Button(list[k].name, EncodeAddSource(list[k].id))]
        {
          var button := Button(list[i].name, EncodeAddSource(list[i].id));
          rows := rows + [[button]];
        }
        var msg := OutMessage(m.chatId, ChooseSourcePrompt, rows, false);
        r := ViewResult([Send(msg)], None);
    }
  }

  const ListHeader: string := "Список источников \\(всего "

  /** One value of the text `CmdListSource` keeps reassigning: the number of
      sources and a name with one trailing backslash trimmed. The line is
      never empty and ends with the trimmed name. */
  function ListLine(count: nat, name: string): (line: string)
    ensures |line| > |ListHeader| && line[..|ListHeader|] == ListHeader
    ensures HasSuffix(line, TrimSuffix(name, "\\"))
    ensures !HasSuffix(name, "\\") ==> HasSuffix(line, name)
  {
    var trimmed := TrimSuffix(name, "\\");
    var line := ListHeader + FormatInt(count) + "\\)\n\n" + trimmed;
    assert line[..|ListHeader|] == ListHeader;
    assert line[|line| - |trimmed|..] == trimmed;
    line
  }

  /** The text CmdListSource sends for the sources in the order it sorted
      them: the line for the last of them, or "" exactly when there are
      none. */
  function SourceListText(sorted: seq<Source>): (text: string)
    ensures text == "" <==> sorted == []
  {
    if sorted == [] then "" else ListLine(|sorted|, sorted[|sorted| - 1].name)
  }

  /** `CmdListSource(sourceRepo)`: sort the sources by name with a stable
      sort, build the text in a loop, send it as MarkdownV2 and return the
      send's error. */
  method CmdListSource(m: Message, sources: Result<seq<Source>, Error>, sendErr: Option<Error>)
    returns (r: ViewResult)
    ensures sources.Failure? ==> r == ViewResult([], Some(sources.error))
    ensures sources.Success? ==>
              r == ViewResult([Send(OutMessage(m.chatId, SourceListText(SortByName(sources.value)), [], true))], sendErr)
  {
    match sources {
      case Failure(e) =>
        r := ViewResult([], Some(e));
      case Success(list) =>
        var a := new Source[|list|](k requires 0 <= k < |list| => list[k]);
        assert a[..] == list;
        SortSourcesByName(a);
        var msgText := "";
        for i := 0 to a.Length
          invariant msgText == if i == 0 then "" else ListLine(a.Length, a[i - 1].name)
        {
          msgText := ListLine(a.Length, a[i].name);
        }
        r := ViewResult([Send(OutMessage(m.chatId, msgText, [], true))], sendErr);
    }
  }

  /** The list text names the source whose name is greatest (the last of the
      stable sort) and counts all sources; nothing else about the list shows. */
  lemma SourceListTextNamesGreatest(s: seq<Source>)
    ensures s == [] ==> SourceListText(SortByName(s)) == ""
    ensures s != [] ==>
              exists e :: e in s && SourceListText(SortByName(s)) == ListLine(|s|, e.name)
                          && forall x :: x in s ==> !Less(e.name, x.name)
  {
    if s != [] {
      var sorted := SortByName(s);
      var e := sorted[|sorted| - 1];
      SortByNameIsTheStableSort(s, sorted);
      assert e in multiset(sorted);
      forall x | x in s ensures !Less(e.name, x.name) {
        assert x in multiset(s);
        assert x in sorted;
        LastIsGreatest(sorted, x);
      }
    }
  }
}
