/** The bot's router: two registries, one from command names to views and
    one from callback prefixes to callbacks, and the dispatch of an update to
    them. A handler is any value; what it does to an update is given by a
    `run` function, so the router is modelled for every set of handlers. */
module Bot {
  import opened Wrappers
  import opened Models
  import opened Telegram
  import opened GoStrings
  import opened Service

  const ErrorPrefix: string := "internal error: "

  /** The reply sent when a view or callback fails:
      `fmt.Sprintf("internal error: %s", err)` as plain text, without a
      keyboard, to the chat the update came from. */
  function ErrorReply(chatId: int, e: Error): (reply: OutMessage)
    ensures reply.chatId == chatId && reply.keyboard == [] && !reply.markdownV2
    ensures |ErrorPrefix| <= |reply.text| && reply.text[..|ErrorPrefix|] == ErrorPrefix && reply.text[|ErrorPrefix|..] == ErrorText(e)
  {
    var text := ErrorPrefix + ErrorText(e);
    assert text[..|ErrorPrefix|] == ErrorPrefix && text[|ErrorPrefix|..] == ErrorText(e);
    NewMessage(chatId, text)
  }

  /** What the router adds after a handler ran: one error reply if, and only
      if, the handler returned an error. */
  function WithErrorReply(chatId: int, res: ViewResult): (effects: seq<Effect>)
    ensures res.err.None? ==> effects == res.effects
    ensures res.err.Some? ==> |effects| == |res.effects| + 1 && effects[..|res.effects|] == res.effects
                              && effects[|res.effects|] == Send(ErrorReply(chatId, res.err.value))
  {
    res.effects + if res.err.Some? then [Send(ErrorReply(chatId, res.err.value))] else []
  }

  /** `Bot`: the two handler maps, each nil until its first registration. */
  class Bot<V, C> {
    var cmd: Option<map<string, V>>
    var cb: Option<map<string, C>>

    /** `New(bot)`: both maps nil. */
    constructor ()
      ensures cmd == None && cb == None
    {
      cmd := None;
      cb := None;
    }

    /** The command map as lookups see it: a nil map has no keys. */
    function Commands(): map<string, V>
      reads this
    {
      if cmd.Some? then cmd.value else map[]
    }

    function Callbacks(): map<string, C>
      reads this
    {
      if cb.Some? then cb.value else map[]
    }

    /** `RegisterCmd`: make the map on first use, then bind `name`, replacing
        any earlier binding; every other name keeps its view. */
    method RegisterCmd(name: string, view: V)
      modifies this
      ensures cmd.Some? && cb == old(cb)
      ensures Commands() == old(Commands())[name := view]
    {
      if cmd.None? {
        cmd := Some(map[]);
      }
      cmd := Some(cmd.value[name := view]);
    }

    /** `RegisterCallback`: the same for the callback map. */
    method RegisterCallback(name: string, callback: C)
      modifies this
      ensures cb.Some? && cmd == old(cmd)
      ensures Callbacks() == old(Callbacks())[name := callback]
    {
      if cb.None? {
        cb := Some(map[]);
      }
      cb := Some(cb.value[name := callback]);
    }

    /** `handleMessage`: look the command up; an unknown command is ignored,
        with no view run and no reply; a known one runs its view, and a view
        error is answered with one error reply to the message's chat. */
    function HandleMessage(u: Update, run: (V, Update) -> ViewResult): (effects: seq<Effect>)
      reads this
      requires u.message.Some?
      ensures u.message.value.command !in Commands() ==> effects == []
      ensures u.message.value.command in Commands() ==>
                effects == WithErrorReply(u.message.value.chatId, run(Commands()[u.message.value.command], u))
    {
      var m := u.message.value;
      if m.command !in Commands() then []
      else WithErrorReply(m.chatId, run(Commands()[m.command], u))
    }

    /** `handleCallback`: route by the text before the first ':' of the
        callback data; an unknown prefix is ignored; a callback error is
        answered with one error reply to the callback's chat. */
    function HandleCallback(u: Update, run: (C, Update) -> ViewResult): (effects: seq<Effect>)
      reads this
      requires u.callback.Some?
      ensures var q := u.callback.value;
              var key := q.data[..IndexOf(q.data, ':')];
              && (key !in Callbacks() ==> effects == [])
              && (key in Callbacks() ==> effects == WithErrorReply(q.chatId, run(Callbacks()[key], u)))
    {
      var q := u.callback.value;
      var parts := Split(q.data, ':');
      SplitFirstPiece(q.data, ':');
      if |parts| == 0 then
        assert false; []
      else if parts[0] !in Callbacks() then []
      else WithErrorReply(q.chatId, run(Callbacks()[parts[0]], u))
    }

    /** `handleUpdate`: the message first, then the callback query, each only
        when present. */
    function HandleUpdate(u: Update, runView: (V, Update) -> ViewResult, runCallback: (C, Update) -> ViewResult)
      : (effects: seq<Effect>)
      reads this
      ensures u.message.None? && u.callback.None? ==> effects == []
      ensures u.message.Some? && u.callback.None? ==> effects == HandleMessage(u, runView)
      ensures u.message.None? && u.callback.Some? ==> effects == HandleCallback(u, runCallback)
      ensures u.message.Some? && u.callback.Some? ==>
                effects == HandleMessage(u, runView) + HandleCallback(u, runCallback)
    {
      (if u.message.Some? then HandleMessage(u, runView) else [])
        + (if u.callback.Some? then HandleCallback(u, runCallback) else [])
    }
  }

  /** The splitting in handleCallback never yields zero pieces, so its
      `len(parts) == 0` branch cannot be taken. */
  lemma CallbackSplitNeverEmpty(data: string)
    ensures |Split(data, ':')| > 0
  {
  }

  /** CallbackAddSource run for every callback, with fixed outcomes for the
      subscription insert and the confirmation send. */
  function RunAddSource<C>(subsErr: Option<Error>, sendErr: Option<Error>): (C, Update) -> ViewResult
  {
    (c: C, u: Update) => if u.callback.Some? then CallbackAddSource(u.callback.value, subsErr, sendErr)
                         else ViewResult([], None)
  }

  /** Pressing a menu button of a bot whose "source_add" callback is
      CallbackAddSource subscribes the chat to the button's source and
      confirms; a failed confirmation is answered with one error reply. */
  lemma PressAddSourceButton<V, C>(b: Bot<V, C>, id: int, chatId: int, sendErr: Option<Error>)
    requires AddSourcePrefix in b.Callbacks()
    requires Strconv.IsInt64(id)
    ensures var u := Update(None, Some(CallbackQuery(EncodeAddSource(id), chatId)));
            var confirm := Send(NewMessage(chatId, Confirmation(id)));
            b.HandleUpdate(u, (v: V, u': Update) => ViewResult([], None), RunAddSource<C>(None, sendErr))
            == [AddSubscription(chatId, id), confirm]
               + if sendErr.Some? then [Send(ErrorReply(chatId, sendErr.value))] else []
  {
    var data := EncodeAddSource(id);
    Strconv.FormatIntDigitsOnly(id, ':');
    SplitAtFirstSeparator(AddSourcePrefix, ':', Strconv.FormatInt(id));
    assert data == AddSourcePrefix + [':'] + Strconv.FormatInt(id);
    SplitFirstPiece(data, ':');
    CallbackAddSourceOfButton(id, chatId, sendErr);
  }

  /** Data with the right prefix but a second colon still reaches
      CallbackAddSource, which rejects it; the router then answers with the
      error, and no subscription is added. */
  lemma PressButtonWithExtraColon<V, C>(b: Bot<V, C>, tail: string, chatId: int)
    requires AddSourcePrefix in b.Callbacks()
    requires ':' in tail
    ensures var u := Update(None, Some(CallbackQuery(AddSourcePrefix + ":" + tail, chatId)));
            b.HandleCallback(u, RunAddSource<C>(None, None))
            == [Send(ErrorReply(chatId, InvalidCallbackData))]
  {
    var data := AddSourcePrefix + ":" + tail;
    var q := CallbackQuery(data, chatId);
    var u := Update(None, Some(q));
    assert data == AddSourcePrefix + [':'] + tail;
    SplitAtFirstSeparator(AddSourcePrefix, ':', tail);
    assert |Split(tail, ':')| >= 2;
    assert ParseAddSource(data) == Failure(InvalidCallbackData);
    var res := CallbackAddSource(q, None, None);
    assert res == ViewResult([], Some(InvalidCallbackData));
    assert RunAddSource<C>(None, None)(b.Callbacks()[AddSourcePrefix], u) == res;
    SplitFirstPiece(data, ':');
    assert data[..IndexOf(data, ':')] == AddSourcePrefix;
  }
}
