/** What the client reads of the names and scores of a room. */
module HeaderReading {
  import opened Extract
  import opened Fields
  import opened Game
  import opened Listing
  import opened Records
  import opened RoomRoundTrip
  import opened Snapshot
  import opened Text
  import opened Wrappers

  /** The first part of `parse_and_update_state`. */
  datatype Heading = Heading(gameOver: bool, whiteScore: int, blackScore: int, disconnectUser: string, countdown: int,
                             whiteUser: string, whiteElo: int, blackUser: string, blackElo: int,
                             roomId: string, roomName: string)

  /** Nothing when `stoi` throws. */
  function ReadHeading(json: string): Option<Heading> {
    var whiteScore :- ExtractInt(json, "white_score");
    var blackScore :- ExtractInt(json, "black_score");
    var countdown :- ExtractInt(json, "disconnect_countdown");
    var whiteElo :- ExtractInt(json, "white_elo");
    var blackElo :- ExtractInt(json, "black_elo");
    Some(Heading(ExtractBool(json, "game_over"), whiteScore, blackScore,
                 ExtractString(json, "disconnect_user"), countdown,
                 ExtractString(json, "white_user"), whiteElo, ExtractString(json, "black_user"), blackElo,
                 ExtractString(json, "room_id"), ExtractString(json, "room_name")))
  }

  /** What the server has to tell. */
  function HeadingOf(h: Header, a: Arena): Heading {
    Heading(a.gameOver, a.whiteScore, a.blackScore, h.disconnectUser, h.countdown,
            h.whiteUser, h.whiteElo, h.blackUser, h.blackElo, h.roomId, h.roomName)
  }

  /** Every number is one that an `int` holds. */
  predicate HeadingFits(h: Header, a: Arena) {
    && IsInt(a.whiteScore) && IsInt(a.blackScore) && IsInt(h.whiteElo) && IsInt(h.blackElo) && IsInt(h.countdown)
  }

  // ---------- one field ----------

  lemma HeaderKeysDiffer()
    ensures forall m, n :: 0 <= m < n < 11 ==> HEADER_KEYS[m] != HEADER_KEYS[n]
  {
    assert HEADER_KEYS[1][0] != HEADER_KEYS[2][0] && HEADER_KEYS[3][6] != HEADER_KEYS[4][6];
    assert HEADER_KEYS[5][6] != HEADER_KEYS[6][6] && HEADER_KEYS[3][0] != HEADER_KEYS[5][0];
    assert HEADER_KEYS[4][0] != HEADER_KEYS[6][0] && HEADER_KEYS[4][0] != HEADER_KEYS[8][0];
    assert HEADER_KEYS[6][0] != HEADER_KEYS[8][0] && HEADER_KEYS[0][0] != HEADER_KEYS[4][0];
    assert HEADER_KEYS[0][0] != HEADER_KEYS[6][0] && HEADER_KEYS[0][0] != HEADER_KEYS[8][0];
  }

  lemma BareReadable(h: Header, a: Arena, n: nat)
    requires n < 11
    ensures var f := HeaderFields(h, a)[n]; f.Bare? ==> forall c :: c in f.raw ==> c !in STOPS
  {
  }

  lemma HeaderReadable(h: Header, a: Arena, fs: seq<Field>)
    requires CleanHeader(h) && fs == HeaderFields(h, a)
    ensures |fs| == 11 && AllReadable(fs)
    ensures forall n :: 0 <= n < 11 ==> fs[n].key == HEADER_KEYS[n] && KeyWord(fs[n].key)
  {
    forall n | 0 <= n < 11 ensures fs[n].key == HEADER_KEYS[n] && KeyWord(fs[n].key) && Readable(fs[n]) {
      HeaderKey(h, a, n);
      HeaderKeyIsName(n);
      NameClean(HEADER_KEYS[n]);
      HeaderValue(h, a, n);
      BareReadable(h, a, n);
    }
  }

  /** No name that is printed before the `n`-th field is `k`. */
  predicate Unused(h: Header, n: nat, k: string) {
    && (n > 3 ==> h.whiteUser != k) && (n > 5 ==> h.blackUser != k) && (n > 7 ==> h.roomId != k)
    && (n > 8 ==> h.roomName != k) && (n > 9 ==> h.disconnectUser != k)
  }

  lemma UnusedIsNotHeld(h: Header, a: Arena, fs: seq<Field>, n: nat, k: string)
    requires fs == HeaderFields(h, a) && n < 11 && Unused(h, n, k)
    ensures forall i :: 0 <= i < n && fs[i].Word? ==> fs[i].value != k
  {
  }

  lemma OwnField(h: Header, a: Arena, fs: seq<Field>, end: string, n: nat, k: string)
    requires CleanHeader(h) && fs == HeaderFields(h, a) && Closes(end)
    requires n < 11 && k == HEADER_KEYS[n] && Unused(h, n, k)
    ensures fs[n].Word? ==> ExtractString(Opened(fs, end), k) == fs[n].value
    ensures fs[n].Bare? ==> RawValue(Opened(fs, end), k) == Some(fs[n].raw)
  {
    HeaderReadable(h, a, fs);
    HeaderKeysDiffer();
    UnusedIsNotHeld(h, a, fs, n, k);
    FieldReads(fs, n, end);
  }

  lemma OwnNumber(h: Header, a: Arena, fs: seq<Field>, end: string, n: nat, k: string, x: int)
    requires CleanHeader(h) && fs == HeaderFields(h, a) && Closes(end)
    requires n < 11 && k == HEADER_KEYS[n] && Unused(h, n, k)
    requires fs[n] == Bare(k, Decimal(x)) && IsInt(x)
    ensures ExtractInt(Opened(fs, end), k) == Some(x)
  {
    OwnField(h, a, fs, end, n, k);
    StoiPlain(x);
  }

  /** A field that holds the name of a later one makes the client read what comes right behind the holder. */
  lemma HeldBy(h: Header, a: Arena, fs: seq<Field>, end: string, m: nat, n: nat, k: string)
    requires CleanHeader(h) && fs == HeaderFields(h, a) && Closes(end) && m < n < 11 && k == HEADER_KEYS[n]
    requires Unused(h, m, k) && fs[m].Word? && fs[m].value == k
    ensures |fs| == 11
    ensures fs[m + 1].Word? ==> ExtractString(Opened(fs, end), k) == fs[m + 1].value
    ensures fs[m + 1].Word? ==> ExtractInt(Opened(fs, end), k).None?
    ensures fs[m + 1].Bare? ==> RawValue(Opened(fs, end), k) == Some(fs[m + 1].raw)
    ensures fs[m + 1].Bare? && m < 9 ==> ExtractString(Opened(fs, end), k) == HEADER_KEYS[m + 2]
  {
    HeaderReadable(h, a, fs);
    HeaderKeysDiffer();
    UnusedIsNotHeld(h, a, fs, m, k);
    FieldMisread(fs, m, k, end);
  }

  lemma HeldNumber(h: Header, a: Arena, fs: seq<Field>, end: string, m: nat, n: nat, k: string, x: int)
    requires CleanHeader(h) && fs == HeaderFields(h, a) && Closes(end) && m < n < 11 && k == HEADER_KEYS[n]
    requires Unused(h, m, k) && fs[m].Word? && fs[m].value == k
    requires fs[m + 1] == Bare(HEADER_KEYS[m + 1], Decimal(x)) && IsInt(x)
    ensures ExtractInt(Opened(fs, end), k) == Some(x)
  {
    HeldBy(h, a, fs, end, m, n, k);
    StoiPlain(x);
  }

  /** A name that stands behind another name, or behind a number, when the one before it holds `k`. */
  lemma HeldName(h: Header, a: Arena, fs: seq<Field>, end: string, m: nat, n: nat, k: string, seen: string)
    requires CleanHeader(h) && fs == HeaderFields(h, a) && Closes(end) && m < n < 11 && k == HEADER_KEYS[n]
    requires Unused(h, m, k) && fs[m].Word? && fs[m].value == k && m < 9
    requires seen == if fs[m + 1].Word? then fs[m + 1].value else HEADER_KEYS[m + 2]
    ensures ExtractString(Opened(fs, end), k) == seen
  {
    HeldBy(h, a, fs, end, m, n, k);
  }

  // ---------- field by field ----------

  /** What is read for each name: a player or room called like a field further on gets in its way. */
  function SeenBlackUser(h: Header): string {
    if h.whiteUser == "black_user" then "black_user" else h.blackUser
  }

  function SeenBlackElo(h: Header): int {
    if h.whiteUser == "black_elo" then h.whiteElo else h.blackElo
  }

  function SeenRoomId(h: Header): string {
    if h.whiteUser == "room_id" then "black_user" else if h.blackUser == "room_id" then "room_id" else h.roomId
  }

  function SeenRoomName(h: Header): string {
    if h.whiteUser == "room_name" then "black_user" else if h.blackUser == "room_name" then "room_id" else h.roomName
  }

  function SeenDisconnectUser(h: Header): string {
    if h.whiteUser == "disconnect_user" then "black_user"
    else if h.blackUser == "disconnect_user" then "room_id"
    else if h.roomId == "disconnect_user" then h.roomName
    else h.disconnectUser
  }

  /** The client gives up where it takes a name for a number. */
  function SeenCountdown(h: Header): Option<int> {
    if h.whiteUser == "disconnect_countdown" then Some(h.whiteElo)
    else if h.blackUser == "disconnect_countdown" then Some(h.blackElo)
    else if h.roomId == "disconnect_countdown" || h.roomName == "disconnect_countdown" then None
    else Some(h.countdown)
  }

  function SeenHeading(h: Header, a: Arena): Option<Heading> {
    var countdown :- SeenCountdown(h);
    Some(Heading(a.gameOver, a.whiteScore, a.blackScore, SeenDisconnectUser(h), countdown,
                 h.whiteUser, h.whiteElo, SeenBlackUser(h), SeenBlackElo(h), SeenRoomId(h), SeenRoomName(h)))
  }

  lemma FlagSeen(h: Header, a: Arena, fs: seq<Field>, end: string)
    requires CleanHeader(h) && fs == HeaderFields(h, a) && Closes(end)
    ensures ExtractBool(Opened(fs, end), "game_over") == a.gameOver
  {
    OwnField(h, a, fs, end, 0, "game_over");
    FlagTold(Opened(fs, end), "game_over", a.gameOver);
  }

  lemma FlagTold(s: string, k: string, b: bool)
    requires RawValue(s, k) == Some(Flag(b))
    ensures ExtractBool(s, k) == b
  {
    NotTrue("false");
    assert "true" <= "true";
  }

  lemma ScoresSeen(h: Header, a: Arena, fs: seq<Field>, end: string)
    requires CleanHeader(h) && HeadingFits(h, a) && fs == HeaderFields(h, a) && Closes(end)
    ensures ExtractInt(Opened(fs, end), "white_score") == Some(a.whiteScore)
    ensures ExtractInt(Opened(fs, end), "black_score") == Some(a.blackScore)
  {
    OwnNumber(h, a, fs, end, 1, "white_score", a.whiteScore);
    OwnNumber(h, a, fs, end, 2, "black_score", a.blackScore);
  }

  lemma WhiteUserSeen(h: Header, a: Arena, fs: seq<Field>, end: string)
    requires CleanHeader(h) && fs == HeaderFields(h, a) && Closes(end)
    ensures ExtractString(Opened(fs, end), "white_user") == h.whiteUser
  {
    OwnField(h, a, fs, end, 3, "white_user");
  }

  lemma WhiteEloSeen(h: Header, a: Arena, fs: seq<Field>, end: string)
    requires CleanHeader(h) && HeadingFits(h, a) && fs == HeaderFields(h, a) && Closes(end)
    ensures ExtractInt(Opened(fs, end), "white_elo") == Some(h.whiteElo)
  {
    if h.whiteUser == "white_elo" {
      HeldNumber(h, a, fs, end, 3, 4, "white_elo", h.whiteElo);
    } else {
      OwnNumber(h, a, fs, end, 4, "white_elo", h.whiteElo);
    }
  }

  lemma BlackUserSeen(h: Header, a: Arena, fs: seq<Field>, end: string)
    requires CleanHeader(h) && fs == HeaderFields(h, a) && Closes(end)
    ensures ExtractString(Opened(fs, end), "black_user") == SeenBlackUser(h)
  {
    if h.whiteUser == "black_user" {
      HeldName(h, a, fs, end, 3, 5, "black_user", "black_user");
    } else {
      OwnField(h, a, fs, end, 5, "black_user");
    }
  }

  lemma BlackEloSeen(h: Header, a: Arena, fs: seq<Field>, end: string)
    requires CleanHeader(h) && HeadingFits(h, a) && fs == HeaderFields(h, a) && Closes(end)
    ensures ExtractInt(Opened(fs, end), "black_elo") == Some(SeenBlackElo(h))
  {
    if h.whiteUser == "black_elo" {
      HeldNumber(h, a, fs, end, 3, 6, "black_elo", h.whiteElo);
    } else if h.blackUser == "black_elo" {
      HeldNumber(h, a, fs, end, 5, 6, "black_elo", h.blackElo);
    } else {
      OwnNumber(h, a, fs, end, 6, "black_elo", h.blackElo);
    }
  }

  lemma RoomIdSeen(h: Header, a: Arena, fs: seq<Field>, end: string)
    requires CleanHeader(h) && fs == HeaderFields(h, a) && Closes(end)
    ensures ExtractString(Opened(fs, end), "room_id") == SeenRoomId(h)
  {
    if h.whiteUser == "room_id" {
      HeldName(h, a, fs, end, 3, 7, "room_id", "black_user");
    } else if h.blackUser == "room_id" {
      HeldName(h, a, fs, end, 5, 7, "room_id", "room_id");
    } else {
      OwnField(h, a, fs, end, 7, "room_id");
    }
  }

  lemma RoomNameSeen(h: Header, a: Arena, fs: seq<Field>, end: string)
    requires CleanHeader(h) && fs == HeaderFields(h, a) && Closes(end)
    ensures ExtractString(Opened(fs, end), "room_name") == SeenRoomName(h)
  {
    if h.whiteUser == "room_name" {
      HeldName(h, a, fs, end, 3, 8, "room_name", "black_user");
    } else if h.blackUser == "room_name" {
      HeldName(h, a, fs, end, 5, 8, "room_name", "room_id");
    } else if h.roomId == "room_name" {
      HeldName(h, a, fs, end, 7, 8, "room_name", h.roomName);
    } else {
      OwnField(h, a, fs, end, 8, "room_name");
    }
  }

  lemma DisconnectUserSeen(h: Header, a: Arena, fs: seq<Field>, end: string)
    requires CleanHeader(h) && fs == HeaderFields(h, a) && Closes(end)
    ensures ExtractString(Opened(fs, end), "disconnect_user") == SeenDisconnectUser(h)
  {
    if h.whiteUser == "disconnect_user" {
      HeldName(h, a, fs, end, 3, 9, "disconnect_user", "black_user");
    } else if h.blackUser == "disconnect_user" {
      HeldName(h, a, fs, end, 5, 9, "disconnect_user", "room_id");
    } else if h.roomId == "disconnect_user" {
      HeldName(h, a, fs, end, 7, 9, "disconnect_user", h.roomName);
    } else if h.roomName == "disconnect_user" {
      HeldName(h, a, fs, end, 8, 9, "disconnect_user", h.disconnectUser);
    } else {
      OwnField(h, a, fs, end, 9, "disconnect_user");
    }
  }

  lemma CountdownSeen(h: Header, a: Arena, fs: seq<Field>, end: string)
    requires CleanHeader(h) && HeadingFits(h, a) && fs == HeaderFields(h, a) && Closes(end)
    ensures ExtractInt(Opened(fs, end), "disconnect_countdown") == SeenCountdown(h)
  {
    if h.whiteUser == "disconnect_countdown" {
      HeldNumber(h, a, fs, end, 3, 10, "disconnect_countdown", h.whiteElo);
    } else if h.blackUser == "disconnect_countdown" {
      HeldNumber(h, a, fs, end, 5, 10, "disconnect_countdown", h.blackElo);
    } else if h.roomId == "disconnect_countdown" {
      HeldBy(h, a, fs, end, 7, 10, "disconnect_countdown");
    } else if h.roomName == "disconnect_countdown" {
      HeldBy(h, a, fs, end, 8, 10, "disconnect_countdown");
    } else if h.disconnectUser == "disconnect_countdown" {
      HeldNumber(h, a, fs, end, 9, 10, "disconnect_countdown", h.countdown);
    } else {
      OwnNumber(h, a, fs, end, 10, "disconnect_countdown", h.countdown);
    }
  }

  // ---------- the heading ----------

  lemma RoomOpens(h: Header, sounds: seq<string>, w: World) returns (end: string)
    ensures Closes(end) && RoomText(h, sounds, w) == Opened(HeaderFields(h, w.arena), end)
  {
    var header := FieldsText(HeaderFields(h, w.arena), WIRE);
    var played, pieces := Join(SoundTexts(sounds)), Join(PieceTexts(Entries(w.arena, Serialised(w))));
    var rest := AfterHeader(played, pieces, Join(MotionTexts(w.motions)), Join(JumpTexts(w.jumps)));
    end := "," + rest;
    Unfold("{" + header, ArrayText("sounds", played), ArrayText("pieces", pieces),
           ArrayText("motions", Join(MotionTexts(w.motions))), ArrayText("jumps", Join(JumpTexts(w.jumps))));
  }

  function AfterHeader(played: string, pieces: string, motions: string, jumps: string): string {
    ArrayText("sounds", played) + ("," + (ArrayText("pieces", pieces) + ("," + (ArrayText("motions", motions)
    + ("," + (ArrayText("jumps", jumps) + "}"))))))
  }

  lemma Unfold(x: string, a: string, b: string, c: string, d: string)
    ensures x + "," + a + "," + b + "," + c + "," + d + "}"
         == x + ("," + (a + ("," + (b + ("," + (c + ("," + (d + "}"))))))))
  {
  }

  /** What the client reads of the heading, whatever the players and the room are called. */
  lemma HeadingAsSeen(h: Header, sounds: seq<string>, w: World)
    requires CleanHeader(h) && HeadingFits(h, w.arena)
    ensures ReadHeading(RoomText(h, sounds, w)) == SeenHeading(h, w.arena)
  {
    var fs := HeaderFields(h, w.arena);
    var end := RoomOpens(h, sounds, w);
    FlagSeen(h, w.arena, fs, end);
    ScoresSeen(h, w.arena, fs, end);
    WhiteUserSeen(h, w.arena, fs, end);
    WhiteEloSeen(h, w.arena, fs, end);
    BlackUserSeen(h, w.arena, fs, end);
    BlackEloSeen(h, w.arena, fs, end);
    RoomIdSeen(h, w.arena, fs, end);
    RoomNameSeen(h, w.arena, fs, end);
    DisconnectUserSeen(h, w.arena, fs, end);
    CountdownSeen(h, w.arena, fs, end);
  }

  /**
   No name stands in for a field further on, but for the one right behind it; otherwise what is read in its place has to
   be right by chance.
   */
  predicate Unconfused(h: Header) {
    && (h.whiteUser == "black_user" ==> h.blackUser == "black_user")
    && (h.whiteUser == "black_elo" ==> h.blackElo == h.whiteElo)
    && (h.whiteUser == "room_id" ==> h.roomId == "black_user")
    && (h.whiteUser == "room_name" ==> h.roomName == "black_user")
    && (h.whiteUser == "disconnect_user" ==> h.disconnectUser == "black_user")
    && (h.whiteUser == "disconnect_countdown" ==> h.countdown == h.whiteElo)
    && (h.blackUser == "room_id" && h.whiteUser != "room_id" ==> h.roomId == "room_id")
    && (h.blackUser == "room_name" && h.whiteUser != "room_name" ==> h.roomName == "room_id")
    && (h.blackUser == "disconnect_user" && h.whiteUser != "disconnect_user" ==> h.disconnectUser == "room_id")
    && (h.blackUser == "disconnect_countdown" && h.whiteUser != "disconnect_countdown" ==> h.countdown == h.blackElo)
    && (h.roomId == "disconnect_user" && h.whiteUser != "disconnect_user" && h.blackUser != "disconnect_user" ==>
          h.disconnectUser == h.roomName)
    && (h.roomId == "disconnect_countdown" || h.roomName == "disconnect_countdown" ==>
          h.whiteUser == "disconnect_countdown" || h.blackUser == "disconnect_countdown")
  }

  /** The client has flag, scores, ratings and names right exactly when no name is confused with a field. */
  lemma HeadingExactly(h: Header, sounds: seq<string>, w: World)
    requires CleanHeader(h) && HeadingFits(h, w.arena)
    ensures ReadHeading(RoomText(h, sounds, w)) == Some(HeadingOf(h, w.arena)) <==> Unconfused(h)
  {
    HeadingAsSeen(h, sounds, w);
    SeenExactly(h, w.arena);
  }

  lemma SeenExactly(h: Header, a: Arena)
    ensures SeenHeading(h, a) == Some(HeadingOf(h, a)) <==> Unconfused(h)
  {
  }

  /** A room called "disconnect_countdown" makes the client throw. */
  lemma RoomThatThrows(h: Header, sounds: seq<string>, w: World)
    requires CleanHeader(h) && HeadingFits(h, w.arena) && h.roomName == "disconnect_countdown"
    requires h.whiteUser != h.roomName && h.blackUser != h.roomName
    ensures ReadHeading(RoomText(h, sounds, w)).None?
  {
    HeadingAsSeen(h, sounds, w);
  }
}
