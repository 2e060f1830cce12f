/** The notify step: the first article of an in-memory list is sent to every
    subscriber. Sends are returned in subscriber order, together with nothing
    else: a failed send is only logged. */
module Notifier {
  import opened Wrappers
  import opened Models
  import opened Telegram
  import opened Fmt

  /** The text sent for an article: `fmt.Sprintf` with the title as the
      format and no arguments. A title without '%' is sent as it is. */
  function ArticleText(a: Article): (text: string)
    ensures '%' !in a.title ==> text == a.title
  {
    Sprintf0(a.title)
  }

  /** One message per subscriber, addressed to that subscriber. */
  function Broadcast(subscribers: seq<int>, text: string): (msgs: seq<OutMessage>)
    ensures |msgs| == |subscribers|
    ensures forall i :: 0 <= i < |subscribers| ==> msgs[i] == NewMessage(subscribers[i], text)
  {
    seq(|subscribers|, i requires 0 <= i < |subscribers| => NewMessage(subscribers[i], text))
  }

  function Recipients(msgs: seq<OutMessage>): (ids: seq<int>)
    ensures |ids| == |msgs| && forall i :: 0 <= i < |msgs| ==> ids[i] == msgs[i].chatId
  {
    seq(|msgs|, i requires 0 <= i < |msgs| => msgs[i].chatId)
  }

  /** Every subscriber gets exactly as many messages as it occurs in the
      list, and nobody else gets one; all carry the same text. */
  lemma BroadcastReachesEachSubscriber(subscribers: seq<int>, text: string)
    ensures Recipients(Broadcast(subscribers, text)) == subscribers
    ensures multiset(Recipients(Broadcast(subscribers, text))) == multiset(subscribers)
    ensures forall m :: m in Broadcast(subscribers, text) ==> m.text == text && m.chatId in subscribers
  {
    var msgs := Broadcast(subscribers, text);
    assert Recipients(msgs) == subscribers;
    forall m | m in msgs ensures m.text == text && m.chatId in subscribers {
      var i :| 0 <= i < |msgs| && msgs[i] == m;
      assert m.chatId == subscribers[i];
    }
  }

  /** `Repeat(batch, k)`: `batch` sent `k` times over. */
  function Repeat(batch: seq<OutMessage>, k: nat): (r: seq<OutMessage>)
    ensures |r| == k * |batch|
  {
    if k == 0 then [] else Repeat(batch, k - 1) + batch
  }

  class Notifier {
    const sendInterval: int
    const channelId: int
    var subscribers: seq<int>
    var articles: seq<Article>

    constructor (sendInterval: int, subscribers: seq<int>, articles: seq<Article>)
      ensures this.sendInterval == sendInterval && this.channelId == 0
      ensures this.subscribers == subscribers && this.articles == articles
    {
      this.sendInterval := sendInterval;
      this.channelId := 0;
      this.subscribers := subscribers;
      this.articles := articles;
    }

    /** The messages one `Notify` sends: none for an empty list, otherwise
        one per subscriber, each carrying the first article's text. */
    function Batch(): (msgs: seq<OutMessage>)
      reads this
      ensures articles == [] ==> msgs == []
      ensures articles != [] ==>
                |msgs| == |subscribers|
                && forall i :: 0 <= i < |subscribers| ==> msgs[i] == NewMessage(subscribers[i], ArticleText(articles[0]))
    {
      if articles == [] then [] else Broadcast(subscribers, ArticleText(articles[0]))
    }

    /** `Send`: one send per subscriber. A failed send is only logged and
        never stops the loop, so its outcome is not a parameter. Returns
        nil. */
    method Send(article: Article) returns (sent: seq<OutMessage>, err: Option<Error>)
      ensures sent == Broadcast(subscribers, ArticleText(article))
      ensures err == None
    {
      var msg := Sprintf0(article.title);
      sent := [];
      for i := 0 to |subscribers|
        invariant |sent| == i
        invariant forall k :: 0 <= k < i ==> sent[k] == NewMessage(subscribers[k], msg)
      {
        var telegramMsg := NewMessage(subscribers[i], msg);
        sent := sent + [telegramMsg];
      }
      err := None;
    }

    /** `Notify`: nothing for an empty list; otherwise `articles[0]` is sent. */
    method Notify() returns (sent: seq<OutMessage>, err: Option<Error>)
      ensures sent == Batch()
      ensures err == None
    {
      if |articles| == 0 {
        return [], None;
      }
      var articleToSend := articles[0];
      sent, err := Send(articleToSend);
      if err.Some? {
        return sent, err;
      }
      err := None;
    }

    /** `Start` without its timer: the first `Notify`, one more per tick, and
        then the cancellation of the context, whose error is returned.
        `Notify` never fails and never changes the list, so every cycle
        sends the same batch and the result is always `cancelled`. */
    method Start(ticks: nat, cancelled: Error) returns (sent: seq<OutMessage>, err: Option<Error>)
      ensures sent == Repeat(Batch(), ticks + 1)
      ensures err == Some(cancelled)
    {
      var batch, e := Notify();
      if e.Some? {
        return batch, e;
      }
      sent := batch;
      var k := 0;
      while k < ticks
        invariant 0 <= k <= ticks
        invariant sent == Repeat(Batch(), k + 1)
      {
        batch, e := Notify();
        if e.Some? {
          return sent, e;
        }
        sent := sent + batch;
        k := k + 1;
      }
      err := Some(cancelled);
    }
  }

  /** Cycle `c` of `k` sends the same `i`-th message as the first cycle:
      with a non-empty list, the first article to subscriber `i`. */
  lemma {:induction false} RepeatedBatch(batch: seq<OutMessage>, k: nat, c: nat, i: nat)
    requires c < k && i < |batch|
    ensures c * |batch| + i < |Repeat(batch, k)|
    ensures Repeat(batch, k)[c * |batch| + i] == batch[i]
  {
    var prev := Repeat(batch, k - 1);
    assert Repeat(batch, k) == prev + batch;
    if c < k - 1 {
      RepeatedBatch(batch, k - 1, c, i);
      assert c * |batch| + i < |prev|;
    } else {
      assert c * |batch| == |prev|;
    }
  }
}
