/** The chat side: the command helpers of `CommandProcessor`, the throttled
    `Notifier`, and the two middlewares. The chat transport itself is
    represented by what is handed to it (`Notifier.outbox`). */
module Telegram {
  import opened Wrappers
  import opened Exceptions
  import Rss
  import Db

  // ---------------------------------------------------------------------------
  // Splitting a command on whitespace (`str.split()` with no argument).

  /** The characters Python's `str.isspace` accepts. */
  predicate IsSpace(c: char) {
    || c == ' ' || c == '\t' || c == '\n' || c == '\r' || c == '\U{000B}' || c == '\U{000C}'
    || ('\U{001C}' <= c <= '\U{001F}') || c == '\U{0085}' || c == '\U{00A0}' || c == '\U{1680}'
    || ('\U{2000}' <= c <= '\U{200A}') || c == '\U{2028}' || c == '\U{2029}' || c == '\U{202F}'
    || c == '\U{205F}' || c == '\U{3000}'
  }

  /** A non-empty run of non-space characters. */
  predicate IsToken(w: string) {
    w != [] && forall i :: 0 <= i < |w| ==> !IsSpace(w[i])
  }

  /** `s.split()`: the maximal runs of non-space characters, in order. */
  function Words(s: string): (r: seq<string>)
    ensures forall k :: 0 <= k < |r| ==> IsToken(r[k])
    ensures s != [] && !IsSpace(s[0]) ==> r != [] && |r[0]| > 0 && r[0][0] == s[0]
    decreases |s|
  {
    if s == [] then []
    else if IsSpace(s[0]) then Words(s[1..])
    else if |s| == 1 || IsSpace(s[1]) then [[s[0]]] + Words(s[1..])
    else
      var rest := Words(s[1..]);
      [[s[0]] + rest[0]] + rest[1..]
  }

  /** Splitting at a whitespace character splits each side independently. */
  lemma {:induction false} WordsConcat(a: string, c: char, b: string)
    requires IsSpace(c)
    ensures Words(a + [c] + b) == Words(a) + Words(b)
    decreases |a|, 1
  {
    var s := a + [c] + b;
    if a == [] {
      assert s[1..] == b;
    } else if IsSpace(a[0]) {
      assert s[0] == a[0] && s[1..] == a[1..] + [c] + b;
      WordsConcat(a[1..], c, b);
    } else {
      WordsConcatWord(a, c, b);
    }
  }

  /** The case of `WordsConcat` where `a` starts a word. */
  lemma {:induction false} WordsConcatWord(a: string, c: char, b: string)
    requires IsSpace(c) && a != [] && !IsSpace(a[0])
    ensures Words(a + [c] + b) == Words(a) + Words(b)
    decreases |a|, 0
  {
    var s := a + [c] + b;
    assert s[0] == a[0] && s[1..] == a[1..] + [c] + b;
    if |a| == 1 {
      assert s[1] == c && s[1..] == [c] + b && ([c] + b)[1..] == b;
      assert Words(a) == [[a[0]]] + Words(a[1..]);
    } else {
      assert s[1] == a[1] && a[1..][0] == a[1];
      WordsConcat(a[1..], c, b);
      if !IsSpace(a[1]) {
        HeadMerge([a[0]], Words(a[1..]), Words(b));
      }
    }
  }

  lemma HeadMerge<T>(h: seq<T>, r: seq<seq<T>>, t: seq<seq<T>>)
    requires r != []
    ensures [h + (r + t)[0]] + (r + t)[1..] == ([h + r[0]] + r[1..]) + t
  {
  }

  /** A token splits to itself. */
  lemma {:induction false} WordsOfToken(w: string)
    requires IsToken(w)
    ensures Words(w) == [w]
    decreases |w|
  {
    if |w| > 1 {
      assert IsToken(w[1..]) by {
        forall i | 0 <= i < |w[1..]| ensures !IsSpace(w[1..][i]) {
          assert w[1..][i] == w[i + 1];
        }
      }
      WordsOfToken(w[1..]);
      assert !IsSpace(w[0]) && !IsSpace(w[1]);
      assert w == [w[0]] + w[1..];
    } else {
      assert !IsSpace(w[0]) && w[1..] == [] && w == [w[0]];
    }
  }

  /** `"/add <url> ..."`: the command and its argument are the first two words. */
  lemma CommandWords(command: string, argument: string, rest: string)
    requires IsToken(command) && IsToken(argument)
    ensures Words(command + " " + argument) == [command, argument]
    ensures Words(command + " " + argument + " " + rest) == [command, argument] + Words(rest)
  {
    WordsOfToken(command);
    WordsOfToken(argument);
    WordsConcat(command, ' ', argument);
    assert command + " " + argument == command + [' '] + argument;
    WordsConcat(command + " " + argument, ' ', rest);
    assert command + " " + argument + " " + rest == (command + " " + argument) + [' '] + rest;
  }

  // ---------------------------------------------------------------------------
  // Feed URL arguments.

  predicate StartsWith(s: string, prefix: string) {
    |prefix| <= |s| && s[..|prefix|] == prefix
  }

  /** The characters before the first `:`. */
  function SchemeOf(url: string): (r: string)
    ensures |r| <= |url| && url[..|r|] == r
    ensures forall i :: 0 <= i < |r| ==> r[i] != ':'
    ensures |r| < |url| ==> url[|r|] == ':'
  {
    if url == [] || url[0] == ':' then [] else [url[0]] + SchemeOf(url[1..])
  }

  /** `__is_url_valid`: the URL library must accept it (`accepts` stands for
      that foreign predicate) and its scheme must be HTTP or HTTPS, written in
      lower case and followed by `//`. */
  function IsUrlValid(url: string, accepts: string -> bool): (r: bool)
    ensures r <==> && accepts(url)
                   && (SchemeOf(url) == "http" || SchemeOf(url) == "https")
                   && StartsWith(url[|SchemeOf(url)|..], "://")
  {
    SchemeForm(url, "http");
    SchemeForm(url, "https");
    accepts(url) && (StartsWith(url, "http://") || StartsWith(url, "https://"))
  }

  /** A url starts with `<scheme>://` iff that is its scheme and `://` follows. */
  lemma SchemeForm(url: string, scheme: string)
    requires forall i :: 0 <= i < |scheme| ==> scheme[i] != ':'
    ensures StartsWith(url, scheme + "://") <==>
              SchemeOf(url) == scheme && StartsWith(url[|SchemeOf(url)|..], "://")
  {
    var n := |scheme|;
    if StartsWith(url, scheme + "://") {
      assert url == scheme + ":" + url[n + 1..];
      SchemeOfPrefix(scheme, url[n + 1..]);
      assert url[n..][..3] == url[..n + 3][n..];
    }
    if SchemeOf(url) == scheme && StartsWith(url[n..], "://") {
      assert url[..n + 3] == url[..n] + url[n..][..3];
    }
  }

  lemma {:induction false} SchemeOfPrefix(scheme: string, rest: string)
    requires forall i :: 0 <= i < |scheme| ==> scheme[i] != ':'
    ensures SchemeOf(scheme + ":" + rest) == scheme
  {
    if scheme != [] {
      assert (scheme + ":" + rest)[1..] == scheme[1..] + ":" + rest;
      SchemeOfPrefix(scheme[1..], rest);
    } else {
      assert (scheme + ":" + rest)[0] == ':';
    }
  }

  /** The argument checks shared by `__add_feed` and `__delete_feed`: the URL
      is the second word of the text and must be valid. */
  function FeedUrlArgument(text: string, accepts: string -> bool): (r: Result<string, Exception>)
    ensures r.Success? ==> |Words(text)| >= 2 && r.value == Words(text)[1] && IsUrlValid(r.value, accepts)
    ensures |Words(text)| < 2 <==> r == Failure(Displayable("Feed URL should be specified"))
    ensures |Words(text)| >= 2 && !IsUrlValid(Words(text)[1], accepts) <==>
              r == Failure(Displayable("Invalid feed URL"))
  {
    var args := Words(text);
    if |args| < 2 then Failure(Displayable("Feed URL should be specified"))
    else if !IsUrlValid(args[1], accepts) then Failure(Displayable("Invalid feed URL"))
    else Success(args[1])
  }

  /** A command followed by a URL token yields that URL, whatever follows it. */
  lemma ArgumentOfCommand(command: string, url: string, rest: string, accepts: string -> bool)
    requires IsToken(command) && IsToken(url)
    ensures FeedUrlArgument(command + " " + url + " " + rest, accepts) ==
            if IsUrlValid(url, accepts) then Success(url) else Failure(Displayable("Invalid feed URL"))
  {
    CommandWords(command, url, rest);
  }

  /** A bare command has no URL. */
  lemma BareCommand(command: string, accepts: string -> bool)
    requires IsToken(command)
    ensures FeedUrlArgument(command, accepts) == Failure(Displayable("Feed URL should be specified"))
  {
    WordsOfToken(command);
  }

  // ---------------------------------------------------------------------------
  // Messages.

  datatype Message = Message(chatId: int, text: string)

  const LinkOpen: string := "<strong><a href=\""
  const LinkMiddle: string := "\">"
  const LinkClose: string := "</a></strong>\n\n"

  /** `__format_message`: a bold link with the item's title, a blank line, and
      the description as it is. */
  function FormatMessage(item: Rss.FeedItem): (text: string)
    ensures |text| == |LinkOpen| + |item.url| + |LinkMiddle| + |item.title| + |LinkClose| + |item.description|
    ensures StartsWith(text, LinkOpen)
    ensures text[|LinkOpen|..|LinkOpen| + |item.url|] == item.url
    ensures text[|LinkOpen| + |item.url|..][..|LinkMiddle|] == LinkMiddle
    ensures text[|LinkOpen| + |item.url| + |LinkMiddle|..][..|item.title|] == item.title
    ensures text[|LinkOpen| + |item.url| + |LinkMiddle| + |item.title|..][..|LinkClose|] == LinkClose
    ensures text[|text| - |item.description|..] == item.description
  {
    Pieces(LinkOpen, item.url, LinkMiddle, item.title, LinkClose, item.description);
    LinkOpen + item.url + LinkMiddle + item.title + LinkClose + item.description
  }

  /** Where each of six concatenated pieces sits. */
  lemma Pieces<T>(p0: seq<T>, p1: seq<T>, p2: seq<T>, p3: seq<T>, p4: seq<T>, p5: seq<T>)
    ensures var s := p0 + p1 + p2 + p3 + p4 + p5;
      && |s| == |p0| + |p1| + |p2| + |p3| + |p4| + |p5|
      && s[..|p0|] == p0
      && s[|p0|..|p0| + |p1|] == p1
      && s[|p0| + |p1|..][..|p2|] == p2
      && s[|p0| + |p1| + |p2|..][..|p3|] == p3
      && s[|p0| + |p1| + |p2| + |p3|..][..|p4|] == p4
      && s[|s| - |p5|..] == p5
  {
    var s := p0 + p1 + p2 + p3 + p4 + p5;
    assert s == p0 + (p1 + (p2 + (p3 + (p4 + p5))));
  }

  /** The messages one chat receives for a list of updates, in list order. */
  function ChatDeliveries(chatId: int, updates: seq<Rss.FeedItem>): seq<Message> {
    seq(|updates|, j requires 0 <= j < |updates| => Message(chatId, FormatMessage(updates[j])))
  }

  /** The messages `send_updates` hands to the transport: chat by chat. */
  function Deliveries(chatIds: seq<int>, updates: seq<Rss.FeedItem>): seq<Message>
    decreases |chatIds|
  {
    if chatIds == [] then []
    else Deliveries(chatIds[..|chatIds| - 1], updates) + ChatDeliveries(chatIds[|chatIds| - 1], updates)
  }

  lemma MulSucc(n: nat, m: nat)
    ensures (n + 1) * m == n * m + m
  {
  }

  /** One message per chat and update. */
  lemma {:induction false} DeliveriesLength(chatIds: seq<int>, updates: seq<Rss.FeedItem>)
    ensures |Deliveries(chatIds, updates)| == |chatIds| * |updates|
    decreases |chatIds|
  {
    if chatIds != [] {
      var n := |chatIds| - 1;
      DeliveriesLength(chatIds[..n], updates);
      MulSucc(n, |updates|);
    }
  }

  /** The position of update `j` of chat `i` when every chat receives `m`. */
  function Slot(i: nat, m: nat, j: nat): nat {
    i * m + j
  }

  /** Message `Slot(i, |updates|, j)` goes to chat `i` and carries update `j`. */
  lemma {:induction false} DeliveriesAt(chatIds: seq<int>, updates: seq<Rss.FeedItem>, i: nat, j: nat)
    requires i < |chatIds| && j < |updates|
    ensures Slot(i, |updates|, j) < |Deliveries(chatIds, updates)|
    ensures Deliveries(chatIds, updates)[Slot(i, |updates|, j)] == Message(chatIds[i], FormatMessage(updates[j]))
    decreases |chatIds|
  {
    var n := |chatIds| - 1;
    var init := chatIds[..n];
    DeliveriesLength(init, updates);
    MulSucc(n, |updates|);
    if i < n {
      DeliveriesAt(init, updates, i, j);
      assert init[i] == chatIds[i];
    } else {
      assert Slot(i, |updates|, j) == n * |updates| + j;
    }
  }

  /** Exactly `|chatIds| * |updates|` messages, chat by chat and, within a
      chat, update by update. */
  lemma DeliveriesShape(chatIds: seq<int>, updates: seq<Rss.FeedItem>)
    ensures |Deliveries(chatIds, updates)| == |chatIds| * |updates|
    ensures forall i, j :: 0 <= i < |chatIds| && 0 <= j < |updates| ==>
              (Slot(i, |updates|, j) < |Deliveries(chatIds, updates)| &&
               Deliveries(chatIds, updates)[Slot(i, |updates|, j)] == Message(chatIds[i], FormatMessage(updates[j])))
  {
    DeliveriesLength(chatIds, updates);
    forall i, j | 0 <= i < |chatIds| && 0 <= j < |updates|
      ensures Slot(i, |updates|, j) < |Deliveries(chatIds, updates)| &&
              Deliveries(chatIds, updates)[Slot(i, |updates|, j)] == Message(chatIds[i], FormatMessage(updates[j]))
    {
      DeliveriesAt(chatIds, updates, i, j);
    }
  }

  // ---------------------------------------------------------------------------
  // The throttle.

  const BatchLimit: nat := 30

  /** The counter and the number of one-second pauses. */
  datatype Throttle = Throttle(counter: nat, pauses: nat)

  /** What `n` sends, one at a time, do to a counter: a send that brings the
      counter to the limit pauses and resets it. */
  function AfterSends(counter: nat, n: nat): Throttle
    decreases n
  {
    if n == 0 then Throttle(counter, 0)
    else
      var t := AfterSends(counter, n - 1);
      if t.counter + 1 >= BatchLimit then Throttle(0, t.pauses + 1) else Throttle(t.counter + 1, t.pauses)
  }

  lemma DivMod(x: nat, q: nat, r: nat)
    requires x == BatchLimit * q + r && r < BatchLimit
    ensures x / BatchLimit == q && x % BatchLimit == r
  {
  }

  lemma MulDistrib(p: nat, q: nat)
    ensures BatchLimit * (p + q) == BatchLimit * p + BatchLimit * q
  {
  }

  /** Every message sent is either still counted or part of a full batch
      that ended in a pause, and the counter stays below the limit. */
  lemma {:induction false} AfterSendsCounts(counter: nat, n: nat)
    requires counter < BatchLimit
    ensures AfterSends(counter, n).counter < BatchLimit
    ensures counter + n == BatchLimit * AfterSends(counter, n).pauses + AfterSends(counter, n).counter
  {
    if n > 0 {
      AfterSendsCounts(counter, n - 1);
      MulDistrib(AfterSends(counter, n - 1).pauses, 1);
    }
  }

  /** From a counter below the limit, `n` sends leave the counter at
      `(c + n) % 30` after `(c + n) / 30` pauses. */
  lemma AfterSendsClosedForm(counter: nat, n: nat)
    requires counter < BatchLimit
    ensures AfterSends(counter, n) ==
            Throttle((counter + n) % BatchLimit, (counter + n) / BatchLimit)
  {
    AfterSendsCounts(counter, n);
    DivMod(counter + n, AfterSends(counter, n).pauses, AfterSends(counter, n).counter);
  }

  /** Two batches of sends throttle like one: the counter carries over. */
  lemma ThrottleCompose(counter: nat, a: nat, b: nat)
    requires counter < BatchLimit
    ensures AfterSends(counter, a).counter < BatchLimit
    ensures AfterSends(counter, a).pauses <= AfterSends(counter, a + b).pauses
    ensures AfterSends(AfterSends(counter, a).counter, b) ==
            Throttle(AfterSends(counter, a + b).counter,
                     AfterSends(counter, a + b).pauses - AfterSends(counter, a).pauses)
  {
    var first := AfterSends(counter, a);
    var second := AfterSends(first.counter, b);
    var whole := AfterSends(counter, a + b);
    AfterSendsCounts(counter, a);
    AfterSendsCounts(first.counter, b);
    AfterSendsCounts(counter, a + b);
    MulDistrib(first.pauses, second.pauses);
    assert counter + a + b == BatchLimit * (first.pauses + second.pauses) + second.counter;
    SplitUnique(counter + a + b, first.pauses + second.pauses, second.counter, whole.pauses, whole.counter);
  }

  /** A number splits one way only into full batches and a remainder. */
  lemma SplitUnique(x: nat, q: nat, r: nat, q': nat, r': nat)
    requires x == BatchLimit * q + r && r < BatchLimit
    requires x == BatchLimit * q' + r' && r' < BatchLimit
    ensures q == q' && r == r'
  {
    DivMod(x, q, r);
    DivMod(x, q', r');
  }

  class Notifier {
    var sentCounter: int
    /** The messages handed to the transport, in order. */
    var outbox: seq<Message>
    /** The number of one-second pauses taken. */
    var pauses: nat

    /** The counter and the pauses are what sending the whole outbox one
        message at a time from a fresh notifier gives. */
    ghost predicate Valid()
      reads this
    {
      && 0 <= sentCounter < BatchLimit
      && Throttle(sentCounter, pauses) == AfterSends(0, |outbox|)
    }

    constructor ()
      ensures Valid() && sentCounter == 0 && outbox == [] && pauses == 0
    {
      sentCounter, outbox, pauses := 0, [], 0;
    }

    /** `send_updates`: every update to every chat, pausing after each full
        batch of `BatchLimit` messages; the counter carries over between calls. */
    method SendUpdates(chatIds: seq<int>, updates: seq<Rss.FeedItem>)
      requires Valid()
      modifies this
      ensures Valid()
      ensures outbox == old(outbox) + Deliveries(chatIds, updates)
      ensures |outbox| == |old(outbox)| + |chatIds| * |updates|
      ensures sentCounter == |outbox| % BatchLimit && pauses == |outbox| / BatchLimit
    {
      for i := 0 to |chatIds|
        invariant Valid()
        invariant outbox == old(outbox) + Deliveries(chatIds[..i], updates)
      {
        SendToChat(chatIds[i], updates);
        assert chatIds[..i + 1][..i] == chatIds[..i];
      }
      assert chatIds[..|chatIds|] == chatIds;
      DeliveriesLength(chatIds, updates);
      CountersOfValid(this);
    }

    /** The inner loop of `send_updates`: the updates to one chat, in order,
        each counted against the batch limit. */
    method SendToChat(chatId: int, updates: seq<Rss.FeedItem>)
      requires Valid()
      modifies this
      ensures Valid()
      ensures outbox == old(outbox) + ChatDeliveries(chatId, updates)
    {
      for j := 0 to |updates|
        invariant Valid()
        invariant outbox == old(outbox) + ChatDeliveries(chatId, updates[..j])
      {
        assert ChatDeliveries(chatId, updates[..j + 1]) ==
               ChatDeliveries(chatId, updates[..j]) + [Message(chatId, FormatMessage(updates[j]))];
        outbox := outbox + [Message(chatId, FormatMessage(updates[j]))];
        sentCounter := sentCounter + 1;
        if sentCounter >= BatchLimit {
          pauses := pauses + 1;
          sentCounter := 0;
        }
      }
      assert updates[..|updates|] == updates;
    }
  }

  /** A valid notifier has paused once per full batch of the messages it has
      sent, and its counter holds the messages sent since the last pause. */
  lemma CountersOfValid(n: Notifier)
    requires n.Valid()
    ensures n.sentCounter == |n.outbox| % BatchLimit && n.pauses == |n.outbox| / BatchLimit
  {
    AfterSendsClosedForm(0, |n.outbox|);
  }

  // ---------------------------------------------------------------------------
  // Replies to errors.

  const GenericError: string := "Something went wrong." + " Please try again (maybe later)."

  /** `ExceptionHandlerMiddleware.post_process`: the reply, if any, for the
      outcome of a handler. */
  function PostProcess(exception: Option<Exception>): (reply: Option<string>)
    ensures reply.None? <==> exception.None?
    ensures exception.Some? && exception.value.Displayable? ==>
              reply == Some("Error: " + exception.value.message)
    ensures exception.Some? && !exception.value.Displayable? ==> reply == Some(GenericError)
  {
    match exception
    case None => None
    case Some(Displayable(message)) => Some("Error: " + message)
    case Some(_) => Some(GenericError)
  }

  /** A displayable message can be read back from its reply, different messages
      give different replies, and no other exception's reply shows any detail
      or looks like a displayable one. */
  lemma {:induction false} RepliesSeparate(m: string, m': string, e: Exception)
    requires !e.Displayable?
    ensures PostProcess(Some(Displayable(m))).value[|"Error: "|..] == m
    ensures m != m' ==> PostProcess(Some(Displayable(m))) != PostProcess(Some(Displayable(m')))
    ensures PostProcess(Some(e)) == PostProcess(Some(Other("")))
    ensures PostProcess(Some(e)) != PostProcess(Some(Displayable(m)))
  {
    var r := PostProcess(Some(Displayable(m))).value;
    assert r[|"Error: "|..] == m;
    if m != m' {
      assert PostProcess(Some(Displayable(m'))).value[|"Error: "|..] == m';
    }
    assert GenericError[0] == "Something went wrong."[0] == 'S';
    assert r[0] == "Error: "[0];
    assert "Error: "[0] == 'E';
  }

  // ---------------------------------------------------------------------------
  // Command processing.

  class CommandProcessor {
    const database: Db.Database
    /** The URL library's predicate. */
    const accepts: string -> bool

    constructor (database: Db.Database, accepts: string -> bool)
      ensures this.database == database && this.accepts == accepts
    {
      this.database := database;
      this.accepts := accepts;
    }

    /** `CommandProcessor(token, database)`: a missing or empty token raises
        `ValueError`. */
    static method Create(token: Option<string>, database: Db.Database, accepts: string -> bool)
      returns (r: Result<CommandProcessor, Exception>)
      ensures r.Failure? <==> token.None? || token.value == ""
      ensures r.Failure? ==> r.error == ValueError("Token should not be empty")
      ensures r.Success? ==> fresh(r.value) && r.value.database == database && r.value.accepts == accepts
    {
      if token.None? || |token.value| == 0 {
        return Failure(ValueError("Token should not be empty"));
      }
      var p := new CommandProcessor(database, accepts);
      r := Success(p);
    }

    /** `__add_feed`: the argument checks come before any store call. */
    method AddFeed(text: string, userId: nat) returns (r: Result<string, Exception>)
      requires database.Valid()
      modifies database
      ensures database.Valid()
      ensures FeedUrlArgument(text, accepts).Failure? ==>
                r == Failure(FeedUrlArgument(text, accepts).error) && unchanged(database)
      ensures FeedUrlArgument(text, accepts).Success? ==>
                var url := FeedUrlArgument(text, accepts).value;
                && database.FindFeedByUrl(url).Some?
                && database.users == old(database.users)
                && database.lastItems == old(database.lastItems)
                && database.nextUserId == old(database.nextUserId)
                && (old(database.FindFeedByUrl(url)).Some? ==>
                      database.feeds == old(database.feeds) && database.nextFeedId == old(database.nextFeedId) &&
                      database.FindFeedByUrl(url) == old(database.FindFeedByUrl(url)))
                && (old(database.FindFeedByUrl(url)).None? ==>
                      database.feeds == old(database.feeds) + [Db.FeedRow(old(database.nextFeedId), url)] &&
                      database.nextFeedId == old(database.nextFeedId) + 1 &&
                      database.FindFeedByUrl(url) == Some(old(database.nextFeedId)))
                && var feedId := database.FindFeedByUrl(url).value;
                && (Db.Subscription(userId, feedId) in old(database.subscriptions) ==>
                      r == Failure(Displayable("Already subscribed")))
                && (Db.Subscription(userId, feedId) !in old(database.subscriptions) && userId !in database.UserIds() ==>
                      r == Failure(Integrity(SubscriptionUserKey)))
                && (r.Success? <==> Db.Subscription(userId, feedId) !in old(database.subscriptions) &&
                                    userId in database.UserIds())
                && (r.Success? ==>
                      && r.value == "Successfully subscribed to feed."
                      && database.subscriptions == old(database.subscriptions) + {Db.Subscription(userId, feedId)})
                && (r.Failure? ==> database.subscriptions == old(database.subscriptions))
    {
      var arg := FeedUrlArgument(text, accepts);
      if arg.Failure? {
        return Failure(arg.error);
      }
      var outcome, feedId := database.SubscribeUserByUrl(userId, arg.value);
      if outcome.Fail? {
        return Failure(outcome.error);
      }
      r := Success("Successfully subscribed to feed.");
    }

    /** `__delete_feed`: the argument checks come before any store call. */
    method DeleteFeed(text: string, userId: nat) returns (r: Result<string, Exception>)
      requires database.Valid()
      modifies database
      ensures database.Valid()
      ensures FeedUrlArgument(text, accepts).Failure? ==>
                r == Failure(FeedUrlArgument(text, accepts).error) && unchanged(database)
      ensures FeedUrlArgument(text, accepts).Success? ==>
                var found := old(database.FindFeedByUrl(FeedUrlArgument(text, accepts).value));
                && database.users == old(database.users)
                && database.nextUserId == old(database.nextUserId)
                && database.nextFeedId == old(database.nextFeedId)
                && (found.None? ==> r == Failure(Displayable("Feed does not exist")) && unchanged(database))
                && (found.Some? && Db.Subscription(userId, found.value) !in old(database.subscriptions) ==>
                      r == Failure(Displayable("Not subscribed")) && unchanged(database))
                && (found.Some? && Db.Subscription(userId, found.value) in old(database.subscriptions) ==>
                      var id := found.value;
                      && r == Success("Unsubscribed.")
                      && database.subscriptions == old(database.subscriptions) - {Db.Subscription(userId, id)}
                      && ((forall s :: s in database.subscriptions ==> s.feedId != id) ==>
                            database.feeds == Db.FeedsWithout(old(database.feeds), id) &&
                            database.lastItems == Db.WithoutFeed(old(database.lastItems), id))
                      && ((exists s :: s in database.subscriptions && s.feedId == id) ==>
                            database.feeds == old(database.feeds) && database.lastItems == old(database.lastItems)))
    {
      var arg := FeedUrlArgument(text, accepts);
      if arg.Failure? {
        return Failure(arg.error);
      }
      var outcome := database.UnsubscribeUserByUrl(userId, arg.value);
      if outcome.Fail? {
        return Failure(outcome.error);
      }
      r := Success("Unsubscribed.");
    }
  }

  class UserAuthMiddleware {
    const database: Db.Database

    constructor (database: Db.Database)
      ensures this.database == database
    {
      this.database := database;
    }

    /** `__find_or_register_user`: registers the sender only when the lookup
        finds no user. An unknown telegram id that does not fit the `INTEGER`
        column makes the insert raise, and the handler is not reached. */
    method FindOrRegisterUser(telegramId: int) returns (r: Result<nat, Exception>)
      requires database.Valid()
      modifies database
      ensures database.Valid()
      ensures database.nextFeedId == old(database.nextFeedId)
      ensures r.Success? ==> database.FindUser(telegramId) == Some(r.value)
      ensures old(database.FindUser(telegramId)).Some? ==>
                r == Success(old(database.FindUser(telegramId)).value) && unchanged(database)
      ensures old(database.FindUser(telegramId)).None? && Db.InIntegerRange(telegramId) ==>
                r == Success(old(database.nextUserId)) &&
                database.nextUserId == old(database.nextUserId) + 1 &&
                database.users == old(database.users) + [Db.UserRow(r.value, telegramId)] &&
                database.feeds == old(database.feeds) &&
                database.subscriptions == old(database.subscriptions) &&
                database.lastItems == old(database.lastItems)
      ensures old(database.FindUser(telegramId)).None? && !Db.InIntegerRange(telegramId) ==>
                r == Failure(IntegerOutOfRange) && unchanged(database)
    {
      var found := database.FindUser(telegramId);
      if found.None? {
        r := database.AddUser(telegramId);
        return;
      }
      r := Success(found.value);
    }
  }
}
