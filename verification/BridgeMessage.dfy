/** What the Telegram bridge makes of one message: whether it forwards it, under
    which idempotency key, and what Drop's upload loop answers to the request. */
module BridgeMessage {
  import opened Prelude
  import opened Text
  import Drop = DropState
  import Upload = DropUpload

  /** The attachment that selectMedia picks. resolvedSize is what getFile reports; name is never empty. */
  datatype Media = Media(size: int64, resolvedSize: int64, name: string, contentType: string, bytes: Bytes)

  /** user is 0 for a message without a sender. */
  datatype Message =
    Message(id: int64, chat: int64, user: int64, chatType: string, chatName: string, senderName: string,
            text: string, caption: string, media: Option<Media>)

  datatype Update = Update(id: int64, content: Option<Message>)

  datatype Config =
    Config(bot: int64, allowedUsers: set<int64>, allowedChats: set<int64>, ttl: int, ackMode: string,
           maxFileSize: int64,
           subject: string, actor: string)

  predicate Allowed(c: Config, user: int64, chat: int64) { chat in c.allowedChats || user in c.allowedUsers }

  /** The part of s before the first separator. */
  function Before(s: string, separator: char): string {
    if s == "" || s[0] == separator then "" else [s[0]] + Before(s[1..], separator)
  }

  /** strings.ToLower, as far as ASCII results go: the two capitals outside ASCII are the dotted I and the Kelvin sign.
      */
  function LowerChar(c: char): char {
    if 'A' <= c <= 'Z' then (c as int + 32) as char
    else if c as int == 0x130 then 'i'
    else if c as int == 0x212A then 'k'
    else c
  }

  function ToLower(s: string): string { seq(|s|, i requires 0 <= i < |s| => LowerChar(s[i])) }

  function ParseCommand(text: string): string {
    var first := Before(TrimSpace(text), ' ');
    if first == "" || first[0] != '/' then "" else ToLower(Before(first[1..], '@'))
  }

  predicate Blank(s: string) { TrimSpace(s) == "" }

  function FormatText(m: Message): string {
    var text := TrimSpace(if m.text == "" then m.caption else m.text);
    var prefix := "Telegram" + (if m.chatName == "" then "" else " · " + m.chatName)
                  + (if m.senderName == "" then "" else " · " + m.senderName);
    if m.chatType == "private" then text else if text == "" then prefix else prefix + "\n\n" + text
  }

  /** What HandleUpdate sets out to do with an update. */
  datatype Plan = Nothing | Say | Forward(message: Message, text: string)

  function PlanFor(c: Config, u: Update): Plan {
    if u.content.None? then Nothing
    else
      var m := u.content.value;
      var command := ParseCommand(m.text);
      if command != "" then (if command in {"start", "help", "whoami"} then Say else Nothing)
      else if !Allowed(c, m.user, m.chat) then Nothing
      else if m.media.None? && Blank(m.text) && Blank(m.caption) then Say
      else if m.media.Some? && m.media.value.size > c.maxFileSize then Say
      else Forward(m, FormatText(m))
  }

  /** A command is a first word that begins with a slash and has something between the slash and the first at sign. */
  lemma CommandExactlyWhen(text: string)
    ensures var t := TrimSpace(text);
            ParseCommand(text) != "" <==> |t| >= 2 && t[0] == '/' && t[1] != ' ' && t[1] != '@'
  {
    hide LowerChar, TrimSpace, Before;
    var t := TrimSpace(text);
    var first := Before(t, ' ');
    BeforeStarts(t, ' ');
    if first != "" {
      BeforeStarts(t[1..], ' ');
      BeforeStarts(first[1..], '@');
    }
  }

  lemma BeforeStarts(s: string, separator: char)
    ensures Before(s, separator) != "" <==> s != "" && s[0] != separator
    ensures Before(s, separator) != "" ==>
              Before(s, separator)[0] == s[0] && Before(s, separator)[1..] == Before(s[1..], separator)
  {
  }

  /** The same letter but for its case; strings.ToLower also takes two capitals outside ASCII for an i and a k. */
  predicate SameLetter(c: char, lower: char) {
    || c == lower || c as int + 32 == lower as int
    || (lower == 'i' && c as int == 0x130) || (lower == 'k' && c as int == 0x212A)
  }

  /** Which command a text is: the letters between the slash and the first space or at sign, in either case. */
  lemma CommandIs(text: string, command: string)
    requires command != "" && forall i :: 0 <= i < |command| ==> 'a' <= command[i] <= 'z'
    ensures var t, n := TrimSpace(text), |command|;
            ParseCommand(text) == command <==>
              && |t| > n && t[0] == '/' && (forall i :: 0 <= i < n ==> SameLetter(t[i + 1], command[i]))
              && (|t| == n + 1 || t[n + 1] == ' ' || t[n + 1] == '@')
  {
    hide TrimSpace, Before, LowerChar;
    var t, n := TrimSpace(text), |command|;
    BeforeStarts(t, ' ');
    if t != "" && t[0] == '/' {
      var word := Before(Before(t[1..], ' '), '@');
      WordIs(t[1..], word);
      LowerIs(word, command);
      if |t| > n { WordIs(t[1..], t[1..][..n]); LowerIs(t[1..][..n], command); }
    }
  }

  lemma LowerIs(word: string, command: string)
    requires forall i :: 0 <= i < |command| ==> 'a' <= command[i] <= 'z'
    ensures ToLower(word) == command <==>
            |word| == |command| && forall i :: 0 <= i < |word| ==> SameLetter(word[i], command[i])
  {
    if |word| == |command| && forall i :: 0 <= i < |word| ==> SameLetter(word[i], command[i]) {
      assert ToLower(word) == command;
    }
    if ToLower(word) == command {
      assert |word| == |command|;
      forall i | 0 <= i < |word| ensures SameLetter(word[i], command[i]) { assert ToLower(word)[i] == command[i]; }
    }
  }

  lemma {:induction false} WordIs(s: string, word: string)
    ensures Before(Before(s, ' '), '@') == word <==>
            && |word| <= |s| && s[..|word|] == word && ' ' !in word && '@' !in word
            && (|s| == |word| || s[|word|] == ' ' || s[|word|] == '@')
  {
    if s != "" && s[0] != ' ' && s[0] != '@' {
      assert Before(s, ' ') == [s[0]] + Before(s[1..], ' ');
      assert Before(s, ' ')[1..] == Before(s[1..], ' ');
      if word != "" {
        WordIs(s[1..], word[1..]);
        assert word == [word[0]] + word[1..];
        assert |word| <= |s| ==> s[..|word|] == [s[0]] + s[1..][..|word[1..]|];
      }
    }
  }

  ghost predicate IsCommand(text: string) {
    var t := TrimSpace(text); |t| >= 2 && t[0] == '/' && t[1] != ' ' && t[1] != '@'
  }

  /** A message is forwarded exactly if it is no command, its chat or its sender is on a list, and it has a file that is
      not too large, or no file and a text or a caption. From anybody else nothing but a command has any effect. What
      is forwarded is the text, or else the caption, trimmed; outside private chats under a line that names the chat
      and the sender. */
  lemma ForwardsExactlyWhen(c: Config, u: Update)
    ensures PlanFor(c, u).Forward? <==>
            u.content.Some? && var m := u.content.value;
            && !IsCommand(m.text) && (m.chat in c.allowedChats || m.user in c.allowedUsers)
            && if m.media.Some? then m.media.value.size <= c.maxFileSize
               else !AllSpace(m.text) || !AllSpace(m.caption)
    ensures u.content.Some? && !IsCommand(u.content.value.text) && u.content.value.chat !in c.allowedChats
            && u.content.value.user !in c.allowedUsers ==>
              PlanFor(c, u) == Nothing
    ensures PlanFor(c, u).Forward? ==>
              var m, text := u.content.value, PlanFor(c, u).text;
              var own := TrimSpace(if m.text != "" then m.text else m.caption);
              var line := "Telegram" + (if m.chatName != "" then " · " + m.chatName else "")
                          + (if m.senderName != "" then " · " + m.senderName else "");
              && PlanFor(c, u).message == m
              && (m.chatType == "private" ==> text == own)
              && (m.chatType != "private" ==> text == if own == "" then line else line + "\n\n" + own)
  {
    if u.content.Some? {
      CommandExactlyWhen(u.content.value.text);
      BlankIsAllSpace(u.content.value.text);
      BlankIsAllSpace(u.content.value.caption);
    }
  }

  /** A message that ends up in Drop, given that its file is as large as getFile reports. */
  predicate Forwardable(c: Config, u: Update) {
    var plan := PlanFor(c, u);
    plan.Forward? && (plan.message.media.Some? ==> plan.message.media.value.resolvedSize <= c.maxFileSize)
  }

  // ---------------------------------------------------------------- the idempotency key

  /** "telegram:%d:%d:%d". */
  function Key(bot: int, chat: int, message: int): string {
    "telegram:" + Decimal(bot) + ":" + Decimal(chat) + ":" + Decimal(message)
  }

  lemma PairInjective(n: int, rest: string, n2: int, rest2: string)
    requires Decimal(n) + ":" + rest == Decimal(n2) + ":" + rest2
    ensures n == n2 && rest == rest2
  {
    NoColon(n);
    NoColon(n2);
    CutInjective(':', Decimal(n), rest, Decimal(n2), rest2);
    DecimalReadsBack(n);
    DecimalReadsBack(n2);
  }

  function Tail(bot: int, chat: int,
                message: int): string { Decimal(bot) + ":" + (Decimal(chat) + ":" + Decimal(message)) }

  lemma KeyTail(b: int, c: int, m: int)
    ensures Key(b, c, m)[9..] == Tail(b, c, m)
  {
    hide Decimal;
    var p := "telegram:";
    assert Key(b, c, m) == p + Tail(b, c, m);
    assert (p + Tail(b, c, m))[|p|..] == Tail(b, c, m);
  }

  /** Different triples have different keys. */
  lemma KeyInjective(b: int, c: int, m: int, b2: int, c2: int, m2: int)
    requires Key(b, c, m) == Key(b2, c2, m2)
    ensures b == b2 && c == c2 && m == m2
  {
    hide Decimal, Key;
    KeyTail(b, c, m);
    KeyTail(b2, c2, m2);
    PairInjective(b, Decimal(c) + ":" + Decimal(m), b2, Decimal(c2) + ":" + Decimal(m2));
    PairInjective(c, Decimal(m), c2, Decimal(m2));
    DecimalReadsBack(m);
    DecimalReadsBack(m2);
  }

  lemma NoColon(n: int)
    ensures ':' !in Decimal(n)
  {
    if ':' in Decimal(n) { DecimalChars(n, ':'); }
  }

  lemma KeyIsAscii(bot: int, chat: int, message: int)
    ensures var key := Key(bot, chat, message); forall i :: 0 <= i < |key| ==> key[i] as int < 0x80
    ensures |Encode(Key(bot, chat, message))| == |Key(bot, chat, message)|
  {
    DecimalIsAscii(bot);
    DecimalIsAscii(chat);
    DecimalIsAscii(message);
    AsciiEncodesAsIs(Key(bot, chat, message));
  }

  lemma DecimalIsAscii(n: int)
    ensures forall i :: 0 <= i < |Decimal(n)| ==> Decimal(n)[i] as int < 0x80
  {
    forall i | 0 <= i < |Decimal(n)| ensures Decimal(n)[i] as int < 0x80 { DecimalChars(n, Decimal(n)[i]); }
  }

  /** Drop accepts the key exactly when the three numbers take at least five characters; for shorter ones the
      bridge retries for ever. No key is too long. */
  lemma KeyLengthAccepted(bot: int64, chat: int64, message: int64)
    ensures var key := Key(bot as int, chat as int, message as int);
            && TrimSpace(key) == key && |Encode(key)| == |key| <= 200
            && (16 <= |key| <==> 5 <= |Decimal(bot as int)| + |Decimal(chat as int)| + |Decimal(message as int)|)
  {
    var key := Key(bot as int, chat as int, message as int);
    DecimalLength(bot);
    DecimalLength(chat);
    DecimalLength(message);
    KeyIsAscii(bot as int, chat as int, message as int);
    var last := Decimal(message as int);
    assert key[|key| - 1] == last[|last| - 1];
    DecimalChars(message as int, last[|last| - 1]);
    TrimKeeps(key);
  }

  // ---------------------------------------------------------------- the request to Drop

  /** What Drop adds to the parts it receives: temporary names, a cleaned file name, a digest; and whether it fails to
      create or to write its temporary file. */
  datatype Reception =
    Reception(temps: seq<Drop.Id>, safeName: string, mediaType: string, digest: Bytes, createFails: bool,
              writeFails: bool)

  function TextField(text: string, r: Reception): Upload.Part
    requires |r.temps| == 3
  { Upload.Part("text", "", Encode(text), false, r.temps[0], false, r.safeName, r.mediaType, r.digest) }

  function TtlField(ttl: int, r: Reception): Upload.Part
    requires |r.temps| == 3
  { Upload.Part("ttl_days", "", Encode(Decimal(ttl)), false, r.temps[1], false, r.safeName, r.mediaType, r.digest) }

  function FileField(media: Media, r: Reception): Upload.Part
    requires |r.temps| == 3
  {
    Upload.Part("files", media.name, media.bytes, r.writeFails, r.temps[2], r.createFails, r.safeName, r.mediaType,
                r.digest)
  }

  /** Why Drop cannot stage the message's file, if it cannot. */
  function StagingFailure(m: Message, r: Reception): Option<Upload.Code> {
    if m.media.None? then None
    else if r.createFails then Some(Upload.StorageUnavailable)
    else if r.writeFails then Some(Upload.UploadFailed)
    else None
  }

  /** writeMultipart: an empty text is not sent. */
  function PartsFor(c: Config, m: Message, text: string, r: Reception): seq<Upload.Part>
    requires |r.temps| == 3
  {
    (if text == "" then [] else [TextField(text, r)]) + [TtlField(c.ttl, r)]
    + (if m.media.None? then [] else [FileField(m.media.value, r)])
  }

  function KeyFor(c: Config, m: Message): string { Key(c.bot as int, m.chat as int, m.id as int) }

  /** The request as it arrives in one piece. */
  function RequestFor(c: Config, m: Message, text: string, r: Reception): Upload.Request
    requires |r.temps| == 3
  {
    Upload.Request(-1, true, PartsFor(c, m, text, r), false, KeyFor(c, m), c.subject, c.actor)
  }

  /** The name under which Drop's idempotency table knows a message. */
  function HashFor(c: Config, m: Message): Drop.KeyHash { Drop.KeyHash(Upload.Preimage(c.actor, KeyFor(c, m))) }

  lemma RequestKey(c: Config, m: Message, request: Upload.Request)
    requires request.key == KeyFor(c, m) && request.actor == c.actor
    ensures Upload.KeyOf(request).Some? ==> Upload.KeyOf(request) == Some(Drop.Key(HashFor(c, m)))
  {
    KeyLengthAccepted(c.bot, m.chat, m.id);
  }

  /** Messages are kept apart: the same hash means the same chat and the same message. */
  lemma HashInjective(c: Config, m: Message, n: Message)
    requires 0 as char !in c.actor && HashFor(c, m) == HashFor(c, n)
    ensures m.chat == n.chat && m.id == n.id
  {
    Upload.PreimageInjective(c.actor, KeyFor(c, m), c.actor, KeyFor(c, n));
    KeyInjective(c.bot as int, m.chat as int, m.id as int, c.bot as int, n.chat as int, n.id as int);
  }

  /** A message whose text is white space only, with a caption, and no attachment, in a private chat. */
  predicate SendsNothing(m: Message) {
    m.chatType == "private" && m.media.None? && m.text != "" && AllSpace(m.text)
  }

  /** Of the messages that the bridge decides to forward, exactly these have neither text nor file. */
  lemma EmptyExactlyWhen(c: Config, u: Update)
    requires PlanFor(c, u).Forward?
    ensures var plan := PlanFor(c, u);
            (plan.text == "" && plan.message.media.None?) <==> SendsNothing(plan.message)
  {
    BlankIsAllSpace(PlanFor(c, u).message.text);
  }

  // ---------------------------------------------------------------- what Drop answers

  /** What Telegram and the configuration guarantee of a forwarded message and its reception. */
  ghost predicate Ordinary(c: Config, m: Message, text: string, r: Reception) {
    && |r.temps| == 3 && c.ttl in {1, 3, 7} && |Encode(text)| <= 0x2000_0000
    && (m.media.Some? ==> m.media.value.name != "" && |m.media.value.bytes| <= 20_971_520)
  }

  lemma TtlReads(ttl: int, r: Reception)
    requires |r.temps| == 3 && ttl in {1, 3, 7}
    ensures Upload.DaysIn(TtlField(ttl, r)) == Some(ttl)
  {
    var s := Decimal(ttl);
    assert |s| == 1 && s[0] == (ttl + '0' as int) as char;
    assert s[1..] == "";
    assert Encode(s) == [(ttl + '0' as int) as byte];
    assert Upload.AsString(Encode(s)) == s;
    TrimKeeps(s);
    TrimBytesAgrees(s);
    DecimalReadsBack(ttl);
  }

  lemma Fields(c: Config, m: Message, text: string, r: Reception)
    requires |r.temps| == 3
    ensures text != "" ==> Upload.KindOf(TextField(text, r)) == Upload.TextPart
    ensures Upload.KindOf(TtlField(c.ttl, r)) == Upload.TtlPart
    ensures m.media.Some? && m.media.value.name != "" ==> Upload.KindOf(FileField(m.media.value, r)) == Upload.FilePart
  {
    assert "text"[0] == 't' && "ttl_days"[1] == 't' && "text"[1] == 'e' && "files"[0] == 'f' && "ttl_days"[0] == 't';
  }

  /** The loop's variables after the text field, if there is one, and after the ttl_days field. */
  function AfterText(text: string): Upload.Progress {
    if text == "" then Upload.Progress([], 1, false, false, [], 0)
    else Upload.Progress(Encode(text), 1, true, false, [], |Encode(text)|)
  }

  function AfterTtl(text: string, ttl: int): Upload.Progress {
    Upload.Progress(Encode(text), ttl, text != "", true, [], |Encode(text)|)
  }

  function TextCount(text: string): nat { if text == "" then 0 else 1 }

  lemma PartsSized(c: Config, m: Message, text: string, r: Reception)
    requires Ordinary(c, m, text, r)
    ensures Upload.Sized(PartsFor(c, m, text, r))
  {
    hide Encode, Decimal;
    ShortTtl(c.ttl);
  }

  lemma TakesText(c: Config, m: Message, text: string, r: Reception)
    requires Ordinary(c, m, text, r)
    ensures Upload.Summary(Upload.DEPLOYED, PartsFor(c, m, text, r), TextCount(text), AfterText(text))
  {
    hide Upload.Summary, Upload.Verdict, Upload.FilesOf, Encode, Decimal, Upload.KindOf;
    var d, parts := Upload.DEPLOYED, PartsFor(c, m, text, r);
    ShortTtl(c.ttl);
    Upload.SummaryStarts(d, parts);
    if text != "" {
      Fields(c, m, text, r);
      EncodingIsValid(text);
      assert parts[0] == TextField(text, r);
      Upload.TextTaken(d, parts, false, 0, AfterText(""));
    }
  }

  lemma TakesTtl(c: Config, m: Message, text: string, r: Reception)
    requires Ordinary(c, m, text, r)
    ensures Upload.Summary(Upload.DEPLOYED, PartsFor(c, m, text, r), TextCount(text) + 1, AfterTtl(text, c.ttl))
  {
    hide Upload.Summary, Upload.Verdict, Upload.FilesOf, Encode, Decimal, Upload.KindOf, Upload.DaysIn;
    var parts, i := PartsFor(c, m, text, r), TextCount(text);
    TakesText(c, m, text, r);
    Fields(c, m, text, r);
    TtlReads(c.ttl, r);
    EncodingIsValid(text);
    assert parts[i] == TtlField(c.ttl, r);
    Upload.TtlTaken(Upload.DEPLOYED, parts, false, i, AfterText(text));
  }

  lemma UploadsSnoc(parts: seq<Upload.Part>, p: Upload.Part)
    ensures Upload.UploadsOf([]) == map[]
    ensures Upload.UploadsOf(parts + [p])
         == if Upload.KindOf(p) == Upload.FilePart then Upload.UploadsOf(parts)[Drop.Upload(p.temp) := p.contents]
            else Upload.UploadsOf(parts)
  {
    hide Upload.KindOf;
    assert Upload.Init(parts + [p]) == parts && Upload.Last(parts + [p]) == p;
  }

  /** Only the media's bytes are staged. */
  lemma UploadsFor(c: Config, m: Message, text: string, r: Reception)
    requires Ordinary(c, m, text, r)
    ensures Upload.UploadsOf(PartsFor(c, m, text, r))
         == if m.media.Some? then map[Drop.Upload(r.temps[2]) := m.media.value.bytes] else map[]
  {
    hide Upload.KindOf, Encode, Decimal, Upload.UploadsOf;
    Fields(c, m, text, r);
    var head := if text == "" then [] else [TextField(text, r)];
    UploadsSnoc([], TextField(text, r));
    assert [] + [TextField(text, r)] == [TextField(text, r)];
    UploadsSnoc(head, TtlField(c.ttl, r));
    if m.media.Some? {
      UploadsSnoc(head + [TtlField(c.ttl, r)], FileField(m.media.value, r));
    } else {
      assert PartsFor(c, m, text, r) == head + [TtlField(c.ttl, r)];
    }
  }

  /** Drop's multipart loop refuses what the bridge writes exactly if it cannot stage the file; otherwise it takes every
      part and tells the store the bridge's text and TTL, and one file, staged with the media's bytes, or none. */
  lemma LoopAccepts(c: Config, m: Message, text: string, r: Reception)
    requires Ordinary(c, m, text, r)
    ensures Upload.Verdict(Upload.DEPLOYED, PartsFor(c, m, text, r), false) == StagingFailure(m, r)
    ensures Upload.Sized(PartsFor(c, m, text, r))
    ensures StagingFailure(m, r).None? ==>
              var parts := PartsFor(c, m, text, r);
              Upload.TextOf(parts) == Encode(text) && Upload.DaysOf(parts) == c.ttl
    ensures StagingFailure(m, r).None? ==>
            var parts := PartsFor(c, m, text, r);
            && Upload.FilesOf(parts) == (if m.media.Some? then [Upload.PendingFor(FileField(m.media.value, r))] else [])
            && Upload.Count(Upload.FilePart, parts) == (if m.media.Some? then 1 else 0)
            && Upload.UploadsOf(parts)
               == if m.media.Some? then map[Drop.Upload(r.temps[2]) := m.media.value.bytes] else map[]
  {
    hide Upload.Summary, Upload.Verdict, Upload.FilesOf, Encode, Decimal, Upload.KindOf, Upload.TextOf, Upload.DaysOf,
         Upload.Count;
    hide Upload.UploadsOf, Upload.Sized;
    var parts, i, v := PartsFor(c, m, text, r), TextCount(text) + 1, AfterTtl(text, c.ttl);
    TakesTtl(c, m, text, r);
    PartsSized(c, m, text, r);
    UploadsFor(c, m, text, r);
    if m.media.Some? {
      var file := FileField(m.media.value, r);
      Fields(c, m, text, r);
      assert parts[i] == file;
      if StagingFailure(m, r).Some? {
        Upload.PartRefused(Upload.DEPLOYED, parts, false, i, v);
        return;
      }
      Upload.FileTaken(Upload.DEPLOYED, parts, false, i, v);
      v := Upload.Progress(v.text, v.ttlDays, v.seenText, true, v.pending + [Upload.PendingFor(file)],
                           v.total + |file.contents|);
    }
    assert i + (if m.media.Some? then 1 else 0) == |parts|;
    Upload.SummaryEnds(Upload.DEPLOYED, parts, false, v);
  }

  lemma ShortTtl(ttl: int)
    requires ttl in {1, 3, 7}
    ensures |Encode(Decimal(ttl))| == 1
  {
    var s := Decimal(ttl);
    assert |s| == 1 && s[0] == (ttl + '0' as int) as char && s[1..] == "";
  }

  /** What Drop answers before it looks at its tables, for every message that the bridge forwards whole: a refusal if it
      cannot stage the file, a refusal of the empty messages and of the short keys, which the bridge then retries for
      ever, and of nothing else. */
  lemma DropAnswers(c: Config, u: Update, r: Reception)
    requires PlanFor(c, u).Forward? && Ordinary(c, PlanFor(c, u).message, PlanFor(c, u).text, r)
    ensures var plan := PlanFor(c, u);
            var m := plan.message;
            Upload.EarlyAnswer(Upload.DEPLOYED, RequestFor(c, m, plan.text, r))
            == if StagingFailure(m, r).Some? then StagingFailure(m, r)
               else if SendsNothing(m) then Some(Upload.EmptyItem)
               else if |Decimal(c.bot as int)| + |Decimal(m.chat as int)| + |Decimal(m.id as int)| < 5 then
                 Some(Upload.InvalidKey)
               else None
  {
    hide Upload.Verdict, Upload.TextOf, Upload.DaysOf, Upload.Count, Decimal, PlanFor, ValidUtf8, PartsFor,
         SendsNothing, Key;
    var plan := PlanFor(c, u);
    var m := plan.message;
    LoopAccepts(c, m, plan.text, r);
    EmptyExactlyWhen(c, u);
    EncodingIsValid(plan.text);
    KeyLengthAccepted(c.bot, m.chat, m.id);
    assert KeyFor(c, m) != "" by { KeyNotEmpty(c.bot as int, m.chat as int, m.id as int); }
  }

  lemma KeyNotEmpty(bot: int, chat: int, message: int)
    ensures Key(bot, chat, message) != ""
  {
  }
}
