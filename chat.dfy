/**
 * Chat rules (server/src/services/chatManager.js): message validation, the
 * admin phrase, the minimum gap between messages, the capped history, the
 * admin commands, and message-id generation. The handler itself, which
 * changes sockets and rooms, is `Server.HandleChatMessage`.
 */
module Chat {
  import opened Wrappers
  import opened Text
  import opened Protocol
  import opened State
  import opened RoomUtil
  import opened Clients
  import opened Security

  const MAX_MESSAGE_LENGTH := 200
  const MIN_MESSAGE_GAP := 500

  const INVALID_NOTICE := "Invalid message."
  const PHRASE_USED_NOTICE := "Admin phrase already used."
  const NOW_ADMIN_NOTICE := "You are now an admin."
  const TOO_FAST_NOTICE := "You are sending messages too fast."

  /** A message is refused when nothing survives sanitizing or it is longer
      than 200 UTF-16 code units. */
  predicate InvalidMessage(m: string) {
    |Sanitize(m)| == 0 || Utf16Length(m) > MAX_MESSAGE_LENGTH
  }

  /** The phrase grants admin only when it is longer than 64 code units and occurs in the message. */
  predicate PhraseHit(phrase: string, m: string) {
    Utf16Length(phrase) > 64 && Contains(m, phrase)
  }

  /** Less than 500ms since the last accepted message (0 means none yet). */
  predicate TooFast(s: Session, now: int) {
    s.lastMessageSent != 0 && now - s.lastMessageSent < MIN_MESSAGE_GAP
  }

  // ---------------------------------------------------------------------
  // The history buffer.

  /** `xs.slice(-n)`: the last n entries, or all of them when there are fewer. */
  function KeepLast<T>(xs: seq<T>, n: nat): (r: seq<T>)
    ensures |r| == if |xs| <= n then |xs| else n
    ensures forall i :: 0 <= i < |r| ==> r[i] == xs[|xs| - |r| + i]
  {
    if |xs| <= n then xs else xs[|xs| - n..]
  }

  /** Appending and trimming keeps the history within 55 entries, the new
      message last, and the older entries in order. */
  lemma HistoryAppend(chat: seq<ChatMessage>, m: ChatMessage)
    requires |chat| <= MAX_CHAT_HISTORY
    ensures var r := KeepLast(chat + [m], MAX_CHAT_HISTORY);
      |r| <= MAX_CHAT_HISTORY && r[|r| - 1] == m
      && (|chat| < MAX_CHAT_HISTORY ==> r == chat + [m])
      && (|chat| == MAX_CHAT_HISTORY ==> r == chat[1..] + [m])
  {
    var r := KeepLast(chat + [m], MAX_CHAT_HISTORY);
    if |chat| == MAX_CHAT_HISTORY {
      assert r == chat[1..] + [m];
    }
  }

  /** The history without the messages of one author. */
  function Purged(chat: seq<ChatMessage>, uuid: string): (r: seq<ChatMessage>)
    ensures forall m :: m in r <==> m in chat && m.author != uuid
    ensures |r| <= |chat|
  {
    if chat == [] then []
    else if chat[0].author == uuid then Purged(chat[1..], uuid)
    else [chat[0]] + Purged(chat[1..], uuid)
  }

  /** The messages of one author, in history order (one delete notice each). */
  function ByAuthor(chat: seq<ChatMessage>, uuid: string): (r: seq<ChatMessage>)
    ensures forall m :: m in r <==> m in chat && m.author == uuid
  {
    if chat == [] then []
    else if chat[0].author == uuid then [chat[0]] + ByAuthor(chat[1..], uuid)
    else ByAuthor(chat[1..], uuid)
  }

  /** `/purge` removes exactly the reported number of messages. */
  lemma {:induction false} PurgeCount(chat: seq<ChatMessage>, uuid: string)
    ensures |Purged(chat, uuid)| + |ByAuthor(chat, uuid)| == |chat|
  {
    if chat != [] {
      PurgeCount(chat[1..], uuid);
    }
  }

  /** The history without the messages carrying one id. */
  function WithoutId(chat: seq<ChatMessage>, id: string): (r: seq<ChatMessage>)
    ensures forall m :: m in r <==> m in chat && m.id != id
    ensures |r| <= |chat|
  {
    if chat == [] then []
    else if chat[0].id == id then WithoutId(chat[1..], id)
    else [chat[0]] + WithoutId(chat[1..], id)
  }

  /** Filtering keeps the order of what remains: it is the identity when nothing matches. */
  lemma {:induction false} WithoutAbsentId(chat: seq<ChatMessage>, id: string)
    requires forall k :: 0 <= k < |chat| ==> chat[k].id != id
    ensures WithoutId(chat, id) == chat
  {
    if chat != [] {
      WithoutAbsentId(chat[1..], id);
    }
  }

  // ---------------------------------------------------------------------
  // Message ids. The random source is a stream of candidate ids in which
  // no candidate repeats.

  ghost predicate Injective(pick: nat -> string) {
    forall i: nat, j: nat :: pick(i) == pick(j) ==> i == j
  }

  function UsedIds(chat: seq<ChatMessage>): set<string> {
    set k | 0 <= k < |chat| :: chat[k].id
  }

  /** The first n candidates. */
  function Picks(pick: nat -> string, n: nat): set<string> {
    if n == 0 then {} else Picks(pick, n - 1) + {pick(n - 1)}
  }

  lemma {:induction false} PicksCard(pick: nat -> string, n: nat)
    requires Injective(pick)
    ensures |Picks(pick, n)| == n
  {
    if n > 0 {
      PicksCard(pick, n - 1);
      PicksFresh(pick, n - 1, n - 1);
    }
  }

  lemma {:induction false} PicksFresh(pick: nat -> string, n: nat, m: nat)
    requires Injective(pick) && m >= n
    ensures pick(m) !in Picks(pick, n)
  {
    if n > 0 {
      PicksFresh(pick, n - 1, m);
    }
  }

  lemma SubsetCard(a: set<string>, b: set<string>)
    requires a <= b
    ensures |a| <= |b|
  {
    assert b == a + (b - a);
  }

  /** `genMessageId`: draws candidates until one is non-empty and unused in the room. */
  method GenMessageId(chat: seq<ChatMessage>, pick: nat -> string) returns (id: string)
    requires Injective(pick)
    ensures id != ""
    ensures forall k :: 0 <= k < |chat| ==> chat[k].id != id
  {
    ghost var bad := UsedIds(chat) + {""};
    id := "";
    var n: nat := 0;
    while id == "" || exists k :: 0 <= k < |chat| && chat[k].id == id
      invariant n == 0 ==> id == ""
      invariant n > 0 ==> id == pick(n - 1) && Picks(pick, n - 1) <= bad
      decreases |bad| - n
    {
      assert id in bad;
      assert Picks(pick, n) <= bad;
      PicksCard(pick, n);
      SubsetCard(Picks(pick, n), bad);
      id := pick(n);
      n := n + 1;
    }
  }

  // ---------------------------------------------------------------------
  // Admin commands.

  predicate IsSpace(c: char) {
    c == ' '
  }

  /** An admin command, as `checkChatCommand` reads it from the message. */
  datatype Command =
    | NotCommand
    | ListPlayers
    | PurgeUsage
    | Purge(uuid: string)
    | DelCrash            // `/del` without an argument: `args[1].startsWith` throws
    | DelUsage
    | Del(id: string)
    | Vanish
    | SetColorUsage
    | SetColor(uuid: string, color: string)
    | SetNameUsage
    | SetName(uuid: string, name: string)

  /** "msg_" is accepted in front of a message id. */
  function StripMsgPrefix(a: string): (r: string)
    ensures StartsWith(a, "msg_") ==> a == "msg_" + r
    ensures !StartsWith(a, "msg_") ==> r == a
  {
    if StartsWith(a, "msg_") then a[4..] else a
  }

  /** A colour argument gets a leading "#" unless it has one. */
  function ColorArg(c: string): (r: string)
    ensures StartsWith(r, "#")
    ensures StartsWith(c, "#") ==> r == c
  {
    if StartsWith(c, "#") then c else "#" + c
  }

  /** `checkChatCommand`'s reading of a message: split on single spaces, the
      first word lowercased; only admins have commands. */
  function ParseCommand(isAdmin: bool, m: string): Command {
    var args := SplitOn(m, IsSpace);
    if !isAdmin then NotCommand else ParseArgs(LowerAll(args[0]), args[1..])
  }

  /** The command named by the lowercased first word `cmd`, with the remaining words `more`. */
  function ParseArgs(cmd: string, more: seq<string>): Command {
    if cmd == "/list" then ListPlayers
    else if cmd == "/purge" then
      (if |more| < 1 || more[0] == "" then PurgeUsage else Purge(more[0]))
    else if cmd == "/del" then
      (if |more| < 1 then DelCrash
       else if StripMsgPrefix(more[0]) == "" then DelUsage
       else Del(StripMsgPrefix(more[0])))
    else if cmd == "/vanish" then Vanish
    else if cmd == "/setcolor" then
      (if |more| != 2 then SetColorUsage else SetColor(more[0], ColorArg(more[1])))
    else if cmd == "/setname" then
      (if |more| != 2 then SetNameUsage else SetName(more[0], Trim(more[1])))
    else NotCommand
  }

  /** Players who are not admins have no commands, and neither does text
      whose first word is not one of the six command names. */
  lemma NoCommandFor(isAdmin: bool, m: string)
    ensures var cmd := LowerAll(SplitOn(m, IsSpace)[0]);
      ParseCommand(isAdmin, m).NotCommand? <==>
        !isAdmin || cmd !in {"/list", "/purge", "/del", "/vanish", "/setcolor", "/setname"}
  {
  }

  /** The command word is matched without regard to ASCII case: two
      messages whose first words agree once lowercased, followed by the same
      arguments, are read as the same command. */
  lemma CommandCaseInsensitive(isAdmin: bool, w: string, w': string, rest: string)
    requires NoSep(w, IsSpace) && NoSep(w', IsSpace) && LowerAll(w) == LowerAll(w')
    ensures ParseCommand(isAdmin, w + " " + rest) == ParseCommand(isAdmin, w' + " " + rest)
  {
    FirstWord(w, rest);
    FirstWord(w', rest);
  }

  lemma FirstWord(w: string, rest: string)
    requires NoSep(w, IsSpace)
    ensures SplitOn(w + " " + rest, IsSpace) == [w] + SplitOn(rest, IsSpace)
  {
    SplitPlain(w, " " + rest, IsSpace);
    assert (" " + rest)[1..] == rest;
    assert w + " " + rest == w + (" " + rest);
    assert w + "" == w;
  }

  /** The /vanish toggle of a username: drop the leading "#" or add one. */
  function ToggleVanish(name: string): (r: string)
    ensures StartsWith(name, "#") ==> "#" + r == name
    ensures !StartsWith(name, "#") ==> r == "#" + name && StartsWith(r, "#")
  {
    if StartsWith(name, "#") then name[1..] else "#" + name
  }

  /** Vanishing and coming back restores the name. */
  lemma VanishRoundTrip(name: string)
    requires !StartsWith(name, "#")
    ensures ToggleVanish(ToggleVanish(name)) == name
  {
    assert ("#" + name)[1..] == name;
  }

  /** The /list headline: "There is 1 player ..." or "There are n players ...". */
  function PlayerCountLine(n: nat): string {
    "There " + (if n == 1 then "is" else "are") + " " + NatToString(n) + " player"
      + (if n == 1 then "" else "s") + " in this room."
  }

  /** One /list line per member: "username - uuid". */
  function MemberLine(c: Client): string {
    c.username + " - " + c.uuid
  }

  // ---------------------------------------------------------------------
  // What `handleChatMessage` does with a message, in the order it checks.

  datatype Verdict =
    | Invalid            // "Invalid message."
    | AsCommand(c: Command)
    | DropVanished       // vanished sender: silently dropped
    | PhraseTaken        // "Admin phrase already used."
    | PhraseClaimed      // becomes admin
    | Throttled          // "You are sending messages too fast."
    | Accepted           // relayed and stored (unless the room has chat disabled)

  /** A valid message that is not an admin command: only such a message is
      checked against the vanish flag, the phrase and the gap. */
  predicate PlainMessage(s: Session, m: string)
    requires s.client.Some?
  {
    !InvalidMessage(m) && ParseCommand(s.client.value.isAdmin, m).NotCommand?
  }

  /** The decision for a socket with a player: each verdict holds exactly
      when the checks before it pass and its own check fails. */
  function Decide(s: Session, m: string, phrase: string, phraseUsed: bool, now: int): (v: Verdict)
    requires s.client.Some?
    ensures v == Invalid <==> InvalidMessage(m)
    ensures v.AsCommand? <==> !InvalidMessage(m) && !ParseCommand(s.client.value.isAdmin, m).NotCommand?
    ensures v.AsCommand? ==> v.c == ParseCommand(s.client.value.isAdmin, m)
    ensures v == DropVanished <==> PlainMessage(s, m) && IsVanished(s)
    ensures v == PhraseTaken <==> PlainMessage(s, m) && !IsVanished(s) && PhraseHit(phrase, m) && phraseUsed
    ensures v == PhraseClaimed <==> PlainMessage(s, m) && !IsVanished(s) && PhraseHit(phrase, m) && !phraseUsed
    ensures v == Throttled <==> PlainMessage(s, m) && !IsVanished(s) && !PhraseHit(phrase, m) && TooFast(s, now)
    ensures v == Accepted <==> PlainMessage(s, m) && !IsVanished(s) && !PhraseHit(phrase, m) && !TooFast(s, now)
  {
    if InvalidMessage(m) then Invalid
    else if !ParseCommand(s.client.value.isAdmin, m).NotCommand? then AsCommand(ParseCommand(s.client.value.isAdmin, m))
    else if IsVanished(s) then DropVanished
    else if PhraseHit(phrase, m) then (if phraseUsed then PhraseTaken else PhraseClaimed)
    else if TooFast(s, now) then Throttled
    else Accepted
  }

  /** Non-admins never reach a command, and the phrase can be claimed only
      while it is unclaimed: once used, every later hit is refused. */
  lemma PhraseOnce(s: Session, m: string, phrase: string, now: int)
    requires s.client.Some? && !s.client.value.isAdmin
    ensures !Decide(s, m, phrase, false, now).AsCommand?
    ensures Decide(s, m, phrase, true, now) != PhraseClaimed
  {
  }

  /** A message too soon after the last accepted one is refused whatever it says, unless it is invalid, a command or the phrase. */
  lemma GapEnforced(s: Session, m: string, phrase: string, used: bool, now: int)
    requires s.client.Some? && TooFast(s, now)
    ensures Decide(s, m, phrase, used, now) != Accepted
  {
  }
}
