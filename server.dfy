/**
 * The experiment's web server (server.js): the round-robin group
 * assignment and the participant id, the music manifest, the Basic
 * authentication guard, the record store with its append and delete, the
 * summary statistics and the item-level export.
 *
 * The file system is the state of the two store classes; clocks, random
 * numbers, request headers, directory listings and the base64 decoder are
 * parameters.
 */
module Server {
  import opened Text
  import opened Json
  import opened Catalog
  import ExperimentAudio
  import ExperimentShop

  // ---------------------------------------------------------------------------
  // Group assignment (`/api/assign-group`)

  /**
   * `readAssign().last`: `None` when the handler throws, which is when the
   * file parses to `null`; an unreadable or missing file reads as
   * `{ last: null }`.
   */
  function AssignLast(file: Option<Json>): (r: Option<Option<Json>>)
    ensures r.None? <==> file == Some(Null)
    ensures file.None? ==> r == Some(Some(Null))
  {
    match file
    case None => Some(Some(Null))
    case Some(Null) => None
    case Some(v) => Some(Field(Some(v), "last"))
  }

  /** `a.last === 'neutral' ? 'nostalgia' : 'neutral'`. */
  function NextGroup(last: Option<Json>): (g: string)
    ensures g == "nostalgia" <==> last == Some(Str("neutral"))
    ensures g == "nostalgia" || g == "neutral"
  {
    if last == Some(Str("neutral")) then "nostalgia" else "neutral"
  }

  /** What `writeAssign({ last: next })` leaves in the file. */
  function AssignFile(g: string): Json {
    Obj(map["last" := Str(g)])
  }

  /** After any successful assignment the next one names the other group, and the one after that the same again. */
  lemma AssignmentsAlternate(file: Option<Json>)
    requires file != Some(Null)
    ensures var g1 := NextGroup(AssignLast(file).value);
      var g2 := NextGroup(AssignLast(Some(AssignFile(g1))).value);
      var g3 := NextGroup(AssignLast(Some(AssignFile(g2))).value);
      g2 != g1 && g3 == g1
  {
  }

  /** An unreadable file, a `null` `last` and any `last` other than `'neutral'` all give `'neutral'`. */
  lemma AssignDefaults(file: Option<Json>)
    ensures file.None? ==> NextGroup(AssignLast(file).value) == "neutral"
    ensures file == Some(AssignFile("nostalgia")) ==> NextGroup(AssignLast(file).value) == "neutral"
    ensures file == Some(AssignFile("neutral")) ==> NextGroup(AssignLast(file).value) == "nostalgia"
    ensures file == Some(Obj(map[])) ==> NextGroup(AssignLast(file).value) == "neutral"
  {
  }

  /** The local time `new Date()` reports, month counted from 0 as `getMonth` does. */
  datatype DateTime = DateTime(year: int, month0: int, day: int, hours: int, minutes: int, seconds: int)

  predicate ValidTime(d: DateTime) {
    0 <= d.month0 < 12 && 1 <= d.day <= 31 && 0 <= d.hours < 24 && 0 <= d.minutes < 60 && 0 <= d.seconds < 60
  }

  /** `'P'` + the year + month, day, hour, minute and second, each padded to two digits. */
  function ParticipantId(d: DateTime): string {
    "P" + IntToString(d.year) + Pad2(d.month0 + 1) + Pad2(d.day) + Pad2(d.hours) + Pad2(d.minutes) + Pad2(d.seconds)
  }

  /** `id` is `P` and 14 digits, which read back as the year, the month counted from 1, the day, hour, minute and second of `d`. */
  predicate IdLayout(id: string, d: DateTime) {
    |id| == 15 && id[0] == 'P' && AllDigits(id[1..]) &&
    DigitsValue(id[1..5]) == d.year && DigitsValue(id[5..7]) == d.month0 + 1 &&
    DigitsValue(id[7..9]) == d.day && DigitsValue(id[9..11]) == d.hours &&
    DigitsValue(id[11..13]) == d.minutes && DigitsValue(id[13..15]) == d.seconds
  }

  /** For a four-digit year the id is 15 characters: `P`, then digits that read back as the year and the five fields. */
  lemma ParticipantIdFormat(d: DateTime)
    requires ValidTime(d) && 1000 <= d.year <= 9999
    ensures IdLayout(ParticipantId(d), d)
  {
    var y := IntToString(d.year);
    assert y == NatToString(d.year);
    NatToStringLength(d.year, 3);
    NatToStringValue(d.year);
    NatToStringDigits(d.year);
    var mo, da, h, mi, s := Pad2(d.month0 + 1), Pad2(d.day), Pad2(d.hours), Pad2(d.minutes), Pad2(d.seconds);
    Pad2Value(d.month0 + 1);
    Pad2Value(d.day);
    Pad2Value(d.hours);
    Pad2Value(d.minutes);
    Pad2Value(d.seconds);
    var id := ParticipantId(d);
    assert id == "P" + y + mo + da + h + mi + s;
    IdFields(y, mo, da, h, mi, s);
    FieldReads(id, 1, 5, y, d.year);
    FieldReads(id, 5, 7, mo, d.month0 + 1);
    FieldReads(id, 7, 9, da, d.day);
    FieldReads(id, 9, 11, h, d.hours);
    FieldReads(id, 11, 13, mi, d.minutes);
    FieldReads(id, 13, 15, s, d.seconds);
  }

  /** A slice of the id that equals a field reads back as that field's value. */
  lemma FieldReads(id: string, i: nat, j: nat, field: string, v: int)
    requires i <= j <= |id| && id[i..j] == field && AllDigits(field) && DigitsValue(field) == v
    ensures AllDigits(id[i..j]) && DigitsValue(id[i..j]) == v
  {
  }

  /** Where each field of the id lies, whatever the fields hold. */
  lemma IdFields(y: string, mo: string, da: string, h: string, mi: string, s: string)
    requires |y| == 4 && |mo| == 2 && |da| == 2 && |h| == 2 && |mi| == 2 && |s| == 2
    requires AllDigits(y) && AllDigits(mo) && AllDigits(da) && AllDigits(h) && AllDigits(mi) && AllDigits(s)
    ensures var id := "P" + y + mo + da + h + mi + s;
      |id| == 15 && id[0] == 'P' && AllDigits(id[1..]) &&
      id[1..5] == y && id[5..7] == mo && id[7..9] == da && id[9..11] == h && id[11..13] == mi && id[13..15] == s
  {
    var id := "P" + y + mo + da + h + mi + s;
    var tail := y + mo + da + h + mi + s;
    assert id == "P" + tail;
    DigitsConcat(y, mo);
    DigitsConcat(y + mo, da);
    DigitsConcat(y + mo + da, h);
    DigitsConcat(y + mo + da + h, mi);
    DigitsConcat(y + mo + da + h + mi, s);
    assert id[1..] == tail;
  }

  lemma DigitsConcat(a: string, b: string)
    requires AllDigits(a) && AllDigits(b)
    ensures AllDigits(a + b)
  {
    assert forall i :: |a| <= i < |a + b| ==> (a + b)[i] == b[i - |a|];
  }

  /** `String(n)` writes only digits. */
  lemma NatToStringDigits(n: nat)
    ensures AllDigits(NatToString(n))
  {
    Pad2Digits(n);
    if |NatToString(n)| < 2 {
      assert Pad2(n) == "0" + NatToString(n);
      assert forall i :: 0 <= i < |NatToString(n)| ==> NatToString(n)[i] == Pad2(n)[i + 1];
    }
  }

  /** The answer of `/api/assign-group`. */
  datatype AssignReply = AssignReply(group: string, participantId: string)

  /** `data/assign.json`, as `JSON.parse` reads it; `None` when it is missing or does not parse. */
  class AssignStore {
    var file: Option<Json>

    constructor (file0: Option<Json>)
      ensures file == file0
    {
      file := file0;
    }

    /**
     * The `/api/assign-group` handler: read `last`, answer the other group
     * with a fresh id, and write the answer back; a file holding `null`
     * makes the handler throw before it writes.
     */
    method AssignGroup(now: DateTime) returns (r: Option<AssignReply>)
      modifies this
      ensures old(file) == Some(Null) ==> r.None? && file == old(file)
      ensures old(file) != Some(Null) ==>
        var g := NextGroup(AssignLast(old(file)).value);
        r == Some(AssignReply(g, ParticipantId(now))) && file == Some(AssignFile(g))
    {
      var last := AssignLast(file);
      if last.None? {
        return None;
      }
      var next := if last.value == Some(Str("neutral")) then "nostalgia" else "neutral";
      file := Some(AssignFile(next));
      r := Some(AssignReply(next, ParticipantId(now)));
    }
  }

  // ---------------------------------------------------------------------------
  // Music manifest (`/api/music-list`)

  /** One entry of `readdirSync(dir, { withFileTypes: true })`. */
  datatype DirEntry = DirEntry(name: string, isFile: bool)

  /** `/\.mp3$/i.test(name)`. */
  predicate IsMp3(name: string) {
    EndsWithIgnoreCase(name, ".mp3")
  }

  predicate Kept(e: DirEntry) {
    e.isFile && IsMp3(e.name)
  }

  function MusicUrl(group: string, name: string): string {
    "/music/" + group + "/" + name
  }

  /** The `filter(isFile)`, `map(name)`, `filter(.mp3)`, `map(url)` chain: the kept entries' urls in listing order. */
  function Mp3Urls(group: string, entries: seq<DirEntry>): (r: seq<string>)
    ensures |r| <= |entries|
    ensures forall u :: u in r <==> exists i :: 0 <= i < |entries| && Kept(entries[i]) && u == MusicUrl(group, entries[i].name)
    decreases |entries|
  {
    if |entries| == 0 then []
    else
      var rest := Mp3Urls(group, entries[1..]);
      assert forall i :: 1 <= i < |entries| ==> entries[1..][i - 1] == entries[i];
      if Kept(entries[0]) then [MusicUrl(group, entries[0].name)] + rest else rest
  }

  /** The urls keep listing order: the urls of a concatenated listing are the urls of its parts, concatenated. */
  lemma {:induction false} Mp3UrlsAppend(group: string, a: seq<DirEntry>, b: seq<DirEntry>)
    ensures Mp3Urls(group, a + b) == Mp3Urls(group, a) + Mp3Urls(group, b)
    decreases |a|
  {
    if |a| == 0 {
      assert a + b == b;
    } else {
      assert (a + b)[0] == a[0];
      assert (a + b)[1..] == a[1..] + b;
      Mp3UrlsAppend(group, a[1..], b);
    }
  }

  /** The first url is that of the first kept entry, so the page plays the first `.mp3` file of the listing. */
  lemma FirstUrlFirstKept(group: string, entries: seq<DirEntry>, k: nat)
    requires k < |entries| && Kept(entries[k])
    requires forall j :: 0 <= j < k ==> !Kept(entries[j])
    ensures |Mp3Urls(group, entries)| > 0 && Mp3Urls(group, entries)[0] == MusicUrl(group, entries[k].name)
  {
    var front, back := entries[..k], entries[k..];
    assert entries == front + back;
    Mp3UrlsAppend(group, front, back);
    NoKeptNoUrls(group, front);
    assert back[0] == entries[k];
  }

  /** A listing without regular `.mp3` files gives no urls. */
  lemma {:induction false} NoKeptNoUrls(group: string, entries: seq<DirEntry>)
    requires forall j :: 0 <= j < |entries| ==> !Kept(entries[j])
    ensures Mp3Urls(group, entries) == []
    decreases |entries|
  {
    if |entries| > 0 {
      assert forall j :: 0 <= j < |entries| - 1 ==> entries[1..][j] == entries[j + 1];
      NoKeptNoUrls(group, entries[1..]);
    }
  }

  /** `readGroup(group)`: `None` is a listing that threw, which gives `[]`. */
  function ReadGroup(group: string, listing: Option<seq<DirEntry>>): seq<string> {
    match listing
    case None => []
    case Some(es) => Mp3Urls(group, es)
  }

  /** The response object: both keys, always. */
  function MusicList(nostalgia: Option<seq<DirEntry>>, neutral: Option<seq<DirEntry>>): (m: ExperimentAudio.Manifest)
    ensures m.Keys == {"nostalgia", "neutral"}
  {
    map["nostalgia" := ReadGroup("nostalgia", nostalgia), "neutral" := ReadGroup("neutral", neutral)]
  }

  /** Every listed url lies under `/music/<group>/`, so the page never takes one for an absolute url. */
  lemma {:induction false} Mp3UrlsRelative(group: string, entries: seq<DirEntry>)
    ensures forall u :: u in Mp3Urls(group, entries) ==> StartsWith(u, "/music/" + group + "/") && !ExperimentAudio.IsAbsoluteUrl(u)
  {
    forall u | u in Mp3Urls(group, entries)
      ensures StartsWith(u, "/music/" + group + "/") && !ExperimentAudio.IsAbsoluteUrl(u)
    {
      var i :| 0 <= i < |entries| && Kept(entries[i]) && u == MusicUrl(group, entries[i].name);
      assert u[..|"/music/" + group + "/"|] == "/music/" + group + "/";
      assert u[0] == '/' && AsciiLower(u[0]) != 'h';
    }
  }

  /**
   * The experiment page takes the server's answer as it is, even with empty
   * groups, so a group without tracks ends in `'no_track'` and never
   * reaches the built-in default list.
   */
  lemma ServerManifestTaken(nostalgia: Option<seq<DirEntry>>, neutral: Option<seq<DirEntry>>,
                            secondary: Option<ExperimentAudio.Manifest>, group: string)
    ensures ExperimentAudio.ChooseManifest(Some(MusicList(nostalgia, neutral)), secondary) == MusicList(nostalgia, neutral)
    ensures group == "neutral" && ReadGroup("neutral", neutral) == [] ==>
      ExperimentAudio.GetLoopTrack(MusicList(nostalgia, neutral), group).None?
  {
  }

  // ---------------------------------------------------------------------------
  // Basic authentication (`basicAuth`)

  /** `process.env.X || fallback`. */
  function Configured(env: Option<string>, fallback: string): string {
    if env.Some? && env.value != "" then env.value else fallback
  }

  function AdminUser(env: Option<string>): string {
    Configured(env, "admin")
  }

  function AdminPass(env: Option<string>): string {
    Configured(env, "eco123")
  }

  /** `const [type, creds] = hdr.split(' ')` with `type === 'Basic' && creds`: the credentials, if the guard lets them through. */
  function BasicCredentials(header: Option<string>): (r: Option<string>)
    ensures r.Some? ==> r.value != "" && ' ' !in r.value
  {
    var hdr := if header.Some? then header.value else "";
    var parts := Split(hdr, ' ');
    SplitPiecesFree(hdr, ' ');
    if parts[0] == "Basic" && |parts| >= 2 && parts[1] != "" then Some(parts[1]) else None
  }

  /** `Basic <creds>` with non-empty, space-free credentials passes the first test, and nothing else with one space does. */
  lemma BasicCredentialsOf(scheme: string, creds: string)
    requires ' ' !in scheme && ' ' !in creds
    ensures BasicCredentials(Some(scheme + " " + creds)) == (if scheme == "Basic" && creds != "" then Some(creds) else None)
    ensures BasicCredentials(None).None?
  {
    assert scheme + " " + creds == scheme + [' '] + creds;
    SplitAfterPiece(scheme, ' ', creds);
    SplitNoSep(creds, ' ');
    assert Split("", ' ') == [""];
  }

  /**
   * `basicAuth` as written: the decoded text is split at every `:` and
   * only its first two pieces are compared.
   */
  function BasicAuth(header: Option<string>, decode: string -> string, adminUser: string, adminPass: string): bool {
    match BasicCredentials(header)
    case None => false
    case Some(creds) =>
      var pieces := Split(decode(creds), ':');
      pieces[0] == adminUser && |pieces| >= 2 && pieces[1] == adminPass
  }

  /** As written, a configured password that contains `:` is never accepted, whatever the header. */
  lemma ColonPasswordLocksOut(header: Option<string>, decode: string -> string, adminUser: string, adminPass: string)
    requires ':' in adminPass
    ensures !BasicAuth(header, decode, adminUser, adminPass)
  {
    if BasicCredentials(header).Some? {
      SplitPiecesFree(decode(BasicCredentials(header).value), ':');
    }
  }

  /** As written, whatever follows a second `:` is ignored: `user:password:anything` is let in. */
  lemma TrailingPieceAccepted(creds: string, decode: string -> string, adminUser: string, adminPass: string, rest: string)
    requires creds != "" && ' ' !in creds && ':' !in adminUser && ':' !in adminPass
    requires decode(creds) == adminUser + ":" + adminPass + ":" + rest
    ensures BasicAuth(Some("Basic " + creds), decode, adminUser, adminPass)
  {
    BasicCredentialsOf("Basic", creds);
    assert "Basic" + " " + creds == "Basic " + creds;
    var text := decode(creds);
    assert text == adminUser + [':'] + (adminPass + [':'] + rest);
    SplitAfterPiece(adminUser, ':', adminPass + [':'] + rest);
    SplitAfterPiece(adminPass, ':', rest);
  }

  /** With the default account, `admin:eco123:junk` is let in. */
  lemma DefaultAccountTrailingPiece(creds: string, decode: string -> string)
    requires creds != "" && ' ' !in creds && decode(creds) == "admin:eco123:junk"
    ensures BasicAuth(Some("Basic " + creds), decode, AdminUser(None), AdminPass(None))
  {
    assert "admin:eco123:junk" == "admin" + ":" + "eco123" + ":" + "junk";
    TrailingPieceAccepted(creds, decode, "admin", "eco123", "junk");
  }

  /**
   * The guard as section 2 of RFC 7617 reads the credentials: the user id
   * ends at the first `:` and the password is all the rest.
   */
  function BasicAuthFirstColon(header: Option<string>, decode: string -> string, adminUser: string, adminPass: string): bool {
    match BasicCredentials(header)
    case None => false
    case Some(creds) =>
      var text := decode(creds);
      match IndexOf(text, ":")
      case None => false
      case Some(i) => text[..i] == adminUser && text[i + 1..] == adminPass
  }

  /** With a colon-free user id, the corrected guard accepts exactly the credentials `user:password`, any password included. */
  lemma FirstColonExact(creds: string, decode: string -> string, adminUser: string, adminPass: string)
    requires creds != "" && ' ' !in creds && ':' !in adminUser
    ensures BasicAuthFirstColon(Some("Basic " + creds), decode, adminUser, adminPass) <==>
      decode(creds) == adminUser + ":" + adminPass
  {
    BasicCredentialsOf("Basic", creds);
    assert "Basic" + " " + creds == "Basic " + creds;
    var text := decode(creds);
    if text == adminUser + ":" + adminPass {
      assert MatchAt(text, ":", |adminUser|);
      var i := IndexOf(text, ":");
      assert i.Some?;
      forall j | 0 <= j < |adminUser| ensures !MatchAt(text, ":", j) {
        assert text[j] == adminUser[j];
        assert text[j..j + 1] == [text[j]];
      }
      assert i.value == |adminUser|;
      assert text[..i.value] == adminUser;
      assert text[i.value + 1..] == adminPass;
    }
    if BasicAuthFirstColon(Some("Basic " + creds), decode, adminUser, adminPass) {
      var i := IndexOf(text, ":").value;
      assert text[i..i + 1] == ":";
      assert text == text[..i] + ":" + text[i + 1..];
    }
  }

  /** The corrected guard accepts a password containing `:`. */
  lemma FirstColonAcceptsColonPassword(creds: string, decode: string -> string)
    requires creds != "" && ' ' !in creds && decode(creds) == "admin:se:cret"
    ensures BasicAuthFirstColon(Some("Basic " + creds), decode, "admin", "se:cret")
    ensures !BasicAuth(Some("Basic " + creds), decode, "admin", "se:cret")
  {
    FirstColonExact(creds, decode, "admin", "se:cret");
    ColonPasswordLocksOut(Some("Basic " + creds), decode, "admin", "se:cret");
  }

  /** Where the two guards differ: only on texts with a second `:` after the user id. */
  lemma GuardsAgreeWithoutSecondColon(header: Option<string>, decode: string -> string, adminUser: string, adminPass: string)
    requires ':' !in adminPass && ':' !in adminUser
    requires BasicCredentials(header).Some? ==> Occurrences(decode(BasicCredentials(header).value), ':') <= 1
    ensures BasicAuth(header, decode, adminUser, adminPass) <==> BasicAuthFirstColon(header, decode, adminUser, adminPass)
  {
    if BasicCredentials(header).Some? {
      var text := decode(BasicCredentials(header).value);
      SplitCount(text, ':');
      var pieces := Split(text, ':');
      SplitPiecesFree(text, ':');
      match IndexOf(text, ":")
      case None =>
        NoColonOnePiece(text);
      case Some(i) =>
        assert text[i..i + 1] == ":";
        assert text == text[..i] + [':'] + text[i + 1..];
        ColonFree(text, i);
        SplitAfterPiece(text[..i], ':', text[i + 1..]);
        OneColon(text, i);
        SplitNoSep(text[i + 1..], ':');
    }
  }

  /** Text without a match of `":"` has no `:`, so it splits into one piece. */
  lemma NoColonOnePiece(text: string)
    requires IndexOf(text, ":").None?
    ensures Split(text, ':') == [text]
  {
    forall j | 0 <= j < |text| ensures text[j] != ':' {
      assert !MatchAt(text, ":", j);
      assert text[j..j + 1] == [text[j]];
    }
    SplitNoSep(text, ':');
  }

  /** Before the first match there is no `:`. */
  lemma ColonFree(text: string, i: nat)
    requires IndexOf(text, ":") == Some(i)
    ensures ':' !in text[..i]
  {
    forall j | 0 <= j < i ensures text[..i][j] != ':' {
      assert !MatchAt(text, ":", j);
      assert text[j..j + 1] == [text[j]];
    }
  }

  /** With at most one `:` in the text, none follows the first. */
  lemma OneColon(text: string, i: nat)
    requires IndexOf(text, ":") == Some(i) && Occurrences(text, ':') <= 1
    ensures ':' !in text[i + 1..]
  {
    assert text[i..i + 1] == ":";
    assert text == text[..i] + [':'] + text[i + 1..];
    ColonFree(text, i);
    OccurrencesSplit(text[..i], text[i + 1..]);
    if ':' in text[i + 1..] {
      OccurrencesPositive(text[i + 1..]);
    }
  }

  lemma {:induction false} OccurrencesSplit(a: string, b: string)
    ensures Occurrences(a + [':'] + b, ':') == Occurrences(a, ':') + 1 + Occurrences(b, ':')
    decreases |a|
  {
    if |a| == 0 {
      assert a + [':'] + b == [':'] + b;
      assert ([':'] + b)[1..] == b;
    } else {
      assert (a + [':'] + b)[1..] == a[1..] + [':'] + b;
      OccurrencesSplit(a[1..], b);
    }
  }

  lemma {:induction false} OccurrencesPositive(s: string)
    requires ':' in s
    ensures Occurrences(s, ':') >= 1
    decreases |s|
  {
    if s[0] != ':' {
      assert ':' in s[1..];
      OccurrencesPositive(s[1..]);
    }
  }

  // ---------------------------------------------------------------------------
  // Records (`/api/experiment-data`)

  /** `x || y || ''` on header values. */
  function FirstNonEmpty(a: Option<string>, b: Option<string>): (r: string)
    ensures r != "" ==> (a.Some? && r == a.value) || (b.Some? && r == b.value)
    ensures a.Some? && a.value != "" ==> r == a.value
    ensures !(a.Some? && a.value != "") && b.Some? && b.value != "" ==> r == b.value
    ensures r == "" <==> !(a.Some? && a.value != "") && !(b.Some? && b.value != "")
  {
    if a.Some? && a.value != "" then a.value
    else if b.Some? && b.value != "" then b.value
    else ""
  }

  /**
   * The POST handler's record: the generated `_id`, `received_at`, `ip`
   * and `user_agent`, then the payload spread over them.
   */
  function MakeRecord(payload: Record, generatedId: string, receivedAt: string, ip: string, userAgent: string): (r: Record)
    ensures r.Keys == payload.Keys + {"_id", "received_at", "ip", "user_agent"}
    ensures forall k :: k in payload ==> r[k] == payload[k]
    ensures "_id" !in payload ==> r["_id"] == Str(generatedId)
    ensures "received_at" !in payload ==> r["received_at"] == Str(receivedAt)
    ensures "ip" !in payload ==> r["ip"] == Str(ip)
    ensures "user_agent" !in payload ==> r["user_agent"] == Str(userAgent)
  {
    map["_id" := Str(generatedId), "received_at" := Str(receivedAt), "ip" := Str(ip), "user_agent" := Str(userAgent)] + payload
  }

  /** `item._id !== id` fails: the record carries the id as a string. */
  predicate HasId(r: Record, id: string) {
    Get(r, "_id") == Some(Str(id))
  }

  /** `list.filter(item => item._id !== id)`. */
  function RemoveId(list: seq<Record>, id: string): (r: seq<Record>)
    ensures |r| <= |list|
    ensures |r| == |list| <==> forall i :: 0 <= i < |list| ==> !HasId(list[i], id)
    decreases |list|
  {
    if |list| == 0 then []
    else
      var rest := RemoveId(list[1..], id);
      assert forall i :: 1 <= i < |list| ==> list[1..][i - 1] == list[i];
      if HasId(list[0], id) then rest else [list[0]] + rest
  }

  /** What stays is exactly the records without the id. */
  lemma {:induction false} RemoveIdMembers(list: seq<Record>, id: string)
    ensures forall x :: x in RemoveId(list, id) <==> x in list && !HasId(x, id)
    decreases |list|
  {
    if |list| > 0 {
      RemoveIdMembers(list[1..], id);
      assert forall x :: x in list <==> x == list[0] || x in list[1..];
    }
  }

  /** Removing keeps the order of what stays: records without the id come through in sequence. */
  lemma {:induction false} RemoveIdKeepsOrder(list: seq<Record>, extra: seq<Record>, id: string)
    ensures RemoveId(list + extra, id) == RemoveId(list, id) + RemoveId(extra, id)
    decreases |list|
  {
    if |list| == 0 {
      assert list + extra == extra;
    } else {
      assert (list + extra)[1..] == list[1..] + extra;
      RemoveIdKeepsOrder(list[1..], extra, id);
    }
  }

  /** `data/experiment-data.json` as `readAllData` parses it; an unparsable file reads as `[]`. */
  datatype DataFile = Parsed(list: seq<Record>) | Unreadable

  function AllData(f: DataFile): seq<Record> {
    match f
    case Parsed(list) => list
    case Unreadable => []
  }

  /** The outcome of a request to the store: the HTTP status and, for a POST, the `id` it answers. */
  datatype Reply = Reply(status: nat, id: Option<Json>)

  class DataStore {
    var file: DataFile

    constructor (file0: DataFile)
      ensures file == file0
    {
      file := file0;
    }

    /** `appendData(record)`: read, `push`, write back. */
    method AppendData(record: Record)
      modifies this
      ensures file == Parsed(AllData(old(file)) + [record])
      ensures |AllData(file)| == |AllData(old(file))| + 1
      ensures AllData(file)[..|AllData(old(file))|] == AllData(old(file))
    {
      var all := AllData(file);
      all := all + [record];
      file := Parsed(all);
    }

    /** The POST handler: build the record, append it, answer its `_id`, which the payload may have replaced. */
    method PostRecord(body: Option<Record>, generatedId: string, receivedAt: string,
                      forwardedFor: Option<string>, remoteAddress: Option<string>, userAgent: Option<string>)
      returns (reply: Reply)
      modifies this
      ensures var payload := if body.Some? then body.value else map[];
        var rec := MakeRecord(payload, generatedId, receivedAt, FirstNonEmpty(forwardedFor, remoteAddress), FirstNonEmpty(userAgent, None));
        file == Parsed(AllData(old(file)) + [rec]) && reply == Reply(200, Some(rec["_id"]))
    {
      var payload := if body.Some? then body.value else map[];
      var ip := FirstNonEmpty(forwardedFor, remoteAddress);
      var rec := MakeRecord(payload, generatedId, receivedAt, ip, FirstNonEmpty(userAgent, None));
      AppendData(rec);
      reply := Reply(200, Some(rec["_id"]));
    }

    /** `DELETE /api/experiment-data/:id`: 404 without writing when no record has the id, else write the rest. */
    method DeleteById(id: string) returns (reply: Reply)
      modifies this
      ensures reply.status == 404 <==> forall i :: 0 <= i < |AllData(old(file))| ==> !HasId(AllData(old(file))[i], id)
      ensures reply.status == 404 ==> file == old(file)
      ensures reply.status != 404 ==> reply.status == 200 && file == Parsed(RemoveId(AllData(old(file)), id))
      ensures reply.id.None?
    {
      var list := AllData(file);
      var filtered := RemoveId(list, id);
      if |filtered| == |list| {
        return Reply(404, None);
      }
      file := Parsed(filtered);
      reply := Reply(200, None);
    }

    /** `DELETE /api/experiment-data`: write `[]`. */
    method ClearAll() returns (reply: Reply)
      modifies this
      ensures file == Parsed([]) && reply == Reply(200, None)
    {
      file := Parsed([]);
      reply := Reply(200, None);
    }
  }

  /** An appended record is found again by its `_id` and removed by it, and deleting it leaves the earlier records as they were when none of them has that id. */
  lemma AppendThenDelete(list: seq<Record>, rec: Record, id: string)
    requires HasId(rec, id) && forall i :: 0 <= i < |list| ==> !HasId(list[i], id)
    ensures RemoveId(list + [rec], id) == list
  {
    RemoveIdKeepsOrder(list, [rec], id);
    assert RemoveId([rec], id) == [];
    assert |RemoveId(list, id)| == |list|;
    RemoveIdNoMatch(list, id);
  }

  lemma {:induction false} RemoveIdNoMatch(list: seq<Record>, id: string)
    requires forall i :: 0 <= i < |list| ==> !HasId(list[i], id)
    ensures RemoveId(list, id) == list
    decreases |list|
  {
    if |list| > 0 {
      assert forall i :: 1 <= i < |list| ==> list[1..][i - 1] == list[i];
      RemoveIdNoMatch(list[1..], id);
      assert [list[0]] + list[1..] == list;
    }
  }

  // ---------------------------------------------------------------------------
  // Statistics (`/api/experiment-stats`)

  /** `r.participant_id || (r.subjectInfo && r.subjectInfo.id) || r.id`. */
  function Pid(r: Record): Option<Json> {
    var si := Get(r, "subjectInfo");
    Or(Or(Get(r, "participant_id"), And(si, Field(si, "id"))), Get(r, "id"))
  }

  /** `r.selected_items` when it is an array, else nothing. */
  function SelectedList(r: Record): seq<Json> {
    match Get(r, "selected_items")
    case Some(Arr(xs)) => xs
    case _ => []
  }

  /** `/\-eco$/.test(id)` on a string id. */
  predicate IsEcoId(v: Json) {
    v.Str? && EndsWith(v.s, "-eco")
  }

  function EcoIn(xs: seq<Json>): nat
    decreases |xs|
  {
    if |xs| == 0 then 0 else EcoIn(xs[..|xs| - 1]) + (if IsEcoId(xs[|xs| - 1]) then 1 else 0)
  }

  function ClassicIn(xs: seq<Json>): nat
    decreases |xs|
  {
    if |xs| == 0 then 0 else ClassicIn(xs[..|xs| - 1]) + (if IsEcoId(xs[|xs| - 1]) then 0 else 1)
  }

  function Purchases(list: seq<Record>): nat
    decreases |list|
  {
    if |list| == 0 then 0 else Purchases(list[..|list| - 1]) + |SelectedList(list[|list| - 1])|
  }

  function EcoCount(list: seq<Record>): nat
    decreases |list|
  {
    if |list| == 0 then 0 else EcoCount(list[..|list| - 1]) + EcoIn(SelectedList(list[|list| - 1]))
  }

  function ClassicCount(list: seq<Record>): nat
    decreases |list|
  {
    if |list| == 0 then 0 else ClassicCount(list[..|list| - 1]) + ClassicIn(SelectedList(list[|list| - 1]))
  }

  /** The set `participants` ends up holding. */
  function PidSet(list: seq<Record>): set<Json> {
    set i | 0 <= i < |list| && Truthy(Pid(list[i])) :: Pid(list[i]).value
  }

  /** The positions of `xs` whose id ends in `-eco`. */
  function EcoPositions(xs: seq<Json>): set<int> {
    set i | 0 <= i < |xs| && IsEcoId(xs[i])
  }

  /** Each selected id is counted once, as eco or as classic. */
  lemma {:induction false} EcoClassicSplit(xs: seq<Json>)
    ensures EcoIn(xs) + ClassicIn(xs) == |xs|
    ensures EcoIn(xs) == |EcoPositions(xs)|
    decreases |xs|
  {
    if |xs| > 0 {
      EcoClassicSplit(xs[..|xs| - 1]);
      EcoPositionsSnoc(xs);
    }
  }

  /** The eco positions of `xs` are those of its front, and its last position when that one is eco. */
  lemma EcoPositionsSnoc(xs: seq<Json>)
    requires |xs| > 0
    ensures |EcoPositions(xs)| == |EcoPositions(xs[..|xs| - 1])| + (if IsEcoId(xs[|xs| - 1]) then 1 else 0)
  {
    var n := |xs| - 1;
    var a := EcoPositions(xs[..n]);
    var b := EcoPositions(xs);
    forall i | 0 <= i < n
      ensures i in a <==> i in b
    {
      assert xs[..n][i] == xs[i];
    }
    if IsEcoId(xs[n]) {
      assert b == a + {n};
      assert n !in a;
    } else {
      assert b == a;
    }
  }

  /** `ecoCount + classicCount == totalPurchases`. */
  lemma {:induction false} StatsAddUp(list: seq<Record>)
    ensures EcoCount(list) + ClassicCount(list) == Purchases(list)
    decreases |list|
  {
    if |list| > 0 {
      StatsAddUp(list[..|list| - 1]);
      EcoClassicSplit(SelectedList(list[|list| - 1]));
    }
  }

  /** One more record adds its truthy participant id, or nothing. */
  lemma PidSetSnoc(list: seq<Record>, r: Record)
    ensures PidSet(list + [r]) == PidSet(list) + (if Truthy(Pid(r)) then {Pid(r).value} else {})
  {
    var l := list + [r];
    assert forall i :: 0 <= i < |list| ==> l[i] == list[i];
    assert l[|list|] == r;
  }

  /** A participant who submits twice is counted once. */
  lemma RepeatCountsOnce(list: seq<Record>, r: Record)
    requires r in list
    ensures PidSet(list + [r]) == PidSet(list)
  {
    PidSetSnoc(list, r);
    var i :| 0 <= i < |list| && list[i] == r;
    if Truthy(Pid(r)) {
      assert Pid(list[i]).value in PidSet(list);
    }
  }

  datatype Stats = Stats(participants: nat, totalPurchases: nat, ecoCount: nat, classicCount: nat)

  /** The `forEach` over the records, with the inner `forEach` over each record's selected ids. */
  method ComputeStats(list: seq<Record>) returns (st: Stats)
    ensures st == Stats(|PidSet(list)|, Purchases(list), EcoCount(list), ClassicCount(list))
    ensures st.ecoCount + st.classicCount == st.totalPurchases
  {
    var participants: set<Json> := {};
    var total, eco, classic := 0, 0, 0;
    var i := 0;
    while i < |list|
      invariant 0 <= i <= |list|
      invariant participants == PidSet(list[..i])
      invariant total == Purchases(list[..i]) && eco == EcoCount(list[..i]) && classic == ClassicCount(list[..i])
    {
      var r := list[i];
      assert list[..i + 1] == list[..i] + [r];
      assert list[..i + 1][..i] == list[..i];
      var pid := Pid(r);
      PidSetSnoc(list[..i], r);
      if Truthy(pid) {
        participants := participants + {pid.value};
      }
      var items := SelectedList(r);
      total := total + |items|;
      var e, c := CountItems(items);
      eco, classic := eco + e, classic + c;
      i := i + 1;
    }
    assert list[..i] == list;
    StatsAddUp(list);
    st := Stats(|participants|, total, eco, classic);
  }

  /** The inner `forEach`: one count or the other for every id. */
  method CountItems(items: seq<Json>) returns (eco: nat, classic: nat)
    ensures eco == EcoIn(items) && classic == ClassicIn(items)
  {
    eco, classic := 0, 0;
    var j := 0;
    while j < |items|
      invariant 0 <= j <= |items|
      invariant eco == EcoIn(items[..j]) && classic == ClassicIn(items[..j])
    {
      assert items[..j + 1][..j] == items[..j];
      if IsEcoId(items[j]) {
        eco := eco + 1;
      } else {
        classic := classic + 1;
      }
      j := j + 1;
    }
    assert items[..j] == items;
  }

  // ---------------------------------------------------------------------------
  // Item-level export (`/api/product-level-export.csv`)

  /** The export's own `BASE_ITEMS`, prices in fen. */
  const BaseItems: seq<Item> := [
    Item("food-coffee", "食品", "咖啡", 5900),
    Item("food-vegetable", "食品", "蔬菜", 2900),
    Item("textile-jacket", "纺织", "冲锋衣", 23900),
    Item("textile-bag", "纺织", "书包", 19900),
    Item("care-skin", "个护", "护肤", 12900),
    Item("care-soap", "个护", "香皂", 1990),
    Item("daily-clean1", "日用", "洗衣液", 5900),
    Item("daily-clean2", "日用", "家用清洁剂", 3900)
  ]

  /** `ALL_PRODUCTS`. */
  const AllProducts: seq<Product> := Expand(BaseItems, "", "")

  /** The export rebuilds the same catalogue the shopping page shows. */
  lemma SameCatalogAsShop()
    ensures BaseItems == ExperimentShop.BaseItems
    ensures AllProducts == ExperimentShop.Products
  {
  }

  function VariantName(v: Variant): string {
    match v
    case Classic => "classic"
    case Eco => "eco"
  }

  /** `v || fallback` when the fallback is truthy or the last resort. */
  function OrElse(v: Option<Json>, fallback: Json): Json {
    if Truthy(v) then v.value else fallback
  }

  /** A line of the export, before `JSON.stringify` and `join(',')`; `decision_time_sec` is always `''`. */
  datatype Line =
    | Header
    | ItemRow(participant: Json, group: Json, productKey: string, category: string, variant: string, price: nat, selected: nat)

  /** The row of one record and one product. */
  function RowFor(bases: seq<Item>, r: Record, p: Product): Line {
    var subject := OrElse(Get(r, "subjectInfo"), Obj(map[]));
    ItemRow(
      OrElse(Get(r, "participant_id"), OrElse(Field(Some(subject), "id"), Str(""))),
      OrElse(Get(r, "music_condition"), OrElse(Get(r, "group"), Str(""))),
      p.key, p.category, VariantName(p.variant), BasePrice(bases, p),
      if Str(p.key) in SelectedList(r) then 1 else 0)
  }

  function RecordRows(bases: seq<Item>, ps: seq<Product>, r: Record): (rows: seq<Line>)
    ensures |rows| == |ps|
  {
    seq(|ps|, k requires 0 <= k < |ps| => RowFor(bases, r, ps[k]))
  }

  /** The product rows of all records, record by record. */
  function ItemRows(bases: seq<Item>, ps: seq<Product>, list: seq<Record>): seq<Line>
    decreases |list|
  {
    if |list| == 0 then [] else ItemRows(bases, ps, list[..|list| - 1]) + RecordRows(bases, ps, list[|list| - 1])
  }

  lemma {:induction false} ItemRowsLength(bases: seq<Item>, ps: seq<Product>, list: seq<Record>)
    ensures |ItemRows(bases, ps, list)| == |list| * |ps|
    decreases |list|
  {
    if |list| > 0 {
      ItemRowsLength(bases, ps, list[..|list| - 1]);
      assert |list| * |ps| == (|list| - 1) * |ps| + |ps|;
    }
  }

  /** Record `i`'s row for product `k` sits at `i * |ps| + k`. */
  lemma {:induction false} ItemRowAt(bases: seq<Item>, ps: seq<Product>, list: seq<Record>, i: nat, k: nat)
    requires i < |list| && k < |ps|
    ensures |ItemRows(bases, ps, list)| == |list| * |ps| && i * |ps| + k < |list| * |ps|
    ensures ItemRows(bases, ps, list)[i * |ps| + k] == RowFor(bases, list[i], ps[k])
    decreases |list|
  {
    var n := |list| - 1;
    var front := list[..n];
    ItemRowsLength(bases, ps, list);
    ItemRowsLength(bases, ps, front);
    assert |list| * |ps| == n * |ps| + |ps|;
    if i < n {
      ItemRowAt(bases, ps, front, i, k);
      assert front[i] == list[i];
    } else {
      assert i * |ps| == n * |ps|;
    }
  }

  /** The handler: the header line, then the rows of `ALL_PRODUCTS` for every record. */
  method ExportItemLevel(list: seq<Record>) returns (lines: seq<Line>)
    ensures lines == [Header] + ItemRows(BaseItems, AllProducts, list)
  {
    lines := WriteRows(BaseItems, AllProducts, list);
  }

  /** The nested `forEach`: after the header, one row per record and product. */
  method WriteRows(bases: seq<Item>, ps: seq<Product>, list: seq<Record>) returns (lines: seq<Line>)
    ensures lines == [Header] + ItemRows(bases, ps, list)
  {
    lines := [Header];
    var i := 0;
    while i < |list|
      invariant 0 <= i <= |list|
      invariant lines == [Header] + ItemRows(bases, ps, list[..i])
    {
      var r := list[i];
      var k := 0;
      ghost var before := lines;
      while k < |ps|
        invariant 0 <= k <= |ps|
        invariant lines == before + RecordRows(bases, ps, r)[..k]
      {
        assert RecordRows(bases, ps, r)[..k + 1] == RecordRows(bases, ps, r)[..k] + [RowFor(bases, r, ps[k])];
        lines := lines + [RowFor(bases, r, ps[k])];
        k := k + 1;
      }
      assert RecordRows(bases, ps, r)[..k] == RecordRows(bases, ps, r);
      assert list[..i + 1][..i] == list[..i];
      i := i + 1;
    }
    assert list[..i] == list;
  }

  /**
   * One header line and exactly 16 rows per record; the row of record `i`
   * and card `k` names that card and marks it selected exactly when the
   * record's `selected_items` holds its key.
   */
  lemma ExportShape(list: seq<Record>)
    ensures |ItemRows(BaseItems, AllProducts, list)| == 16 * |list|
    ensures forall i, k :: 0 <= i < |list| && 0 <= k < 16 ==> ExportRowIs(list, i, k)
  {
    ProductCount();
    ItemRowsLength(BaseItems, AllProducts, list);
    forall i, k | 0 <= i < |list| && 0 <= k < 16
      ensures ExportRowIs(list, i, k)
    {
      ExportRow(list, i, k);
    }
  }

  lemma ExportRow(list: seq<Record>, i: nat, k: nat)
    requires i < |list| && k < 16
    ensures |ItemRows(BaseItems, AllProducts, list)| == 16 * |list| && ExportRowIs(list, i, k)
  {
    ProductCount();
    ItemRowAt(BaseItems, AllProducts, list, i, k);
    assert i * |AllProducts| + k == 16 * i + k;
    var p := AllProducts[k];
    assert ItemRows(BaseItems, AllProducts, list)[16 * i + k] == RowFor(BaseItems, list[i], p);
    ProductFacts(k);
    assert VariantName(p.variant) == (if k % 2 == 0 then "classic" else "eco");
  }

  /** What the export's row of record `i` and card `k` holds. */
  predicate ExportRowIs(list: seq<Record>, i: nat, k: nat)
    requires i < |list| && k < 16 && |ItemRows(BaseItems, AllProducts, list)| == 16 * |list|
  {
    16 * i + k < 16 * |list| &&
    var row := ItemRows(BaseItems, AllProducts, list)[16 * i + k];
    |AllProducts| == 16 &&
    row.ItemRow? && row.productKey == AllProducts[k].key && row.variant == (if k % 2 == 0 then "classic" else "eco") &&
    row.price == BaseItems[k / 2].price &&
    (row.selected == 1 <==> Str(AllProducts[k].key) in SelectedList(list[i])) &&
    (row.selected == 0 <==> Str(AllProducts[k].key) !in SelectedList(list[i]))
  }

  lemma ProductCount()
    ensures |AllProducts| == 16
  {
    ExpandShape(BaseItems, "", "");
  }

  /** Card `k` of `ALL_PRODUCTS`: its variant and its base item's price. */
  lemma ProductFacts(k: nat)
    requires k < 16
    ensures |AllProducts| == 16
    ensures AllProducts[k].variant == (if k % 2 == 0 then Classic else Eco)
    ensures BasePrice(BaseItems, AllProducts[k]) == BaseItems[k / 2].price
  {
    SameCatalogAsShop();
    ExperimentShop.BaseIdsDistinct();
    ExpandFrom(BaseItems, "", "", k);
    ExpandPrice(BaseItems, "", "", k);
  }

  // ---------------------------------------------------------------------------
  // Route guards

  /**
   * Express mount matching, which ignores ASCII case: the mount path itself
   * or anything below it. Every mount here is written in lower case.
   */
  predicate Mounted(mount: string, path: string) {
    (|path| == |mount| && StartsWithIgnoreCase(path, mount)) || StartsWithIgnoreCase(path, mount + "/")
  }

  /** The path with its ASCII capitals lowered. */
  function Lowered(s: string): (r: string)
    ensures |r| == |s| && forall i :: 0 <= i < |s| ==> r[i] == AsciiLower(s[i])
  {
    seq(|s|, i requires 0 <= i < |s| => AsciiLower(s[i]))
  }

  /** A request is guarded or not whatever the case of its path's letters. */
  lemma GuardedIgnoresCase(verb: string, path: string)
    ensures Guarded(verb, path) <==> Guarded(verb, Lowered(path))
  {
    forall i | 0 <= i < |path|
      ensures AsciiLower(Lowered(path)[i]) == AsciiLower(path[i])
    {
      AsciiLowerIdempotent(path[i]);
    }
  }

  lemma AsciiLowerIdempotent(c: char)
    ensures AsciiLower(AsciiLower(c)) == AsciiLower(c)
  {
  }

  /** The requests the server sends through `basicAuth`, as written. */
  predicate Guarded(verb: string, path: string) {
    Mounted("/admin", path) || Mounted("/api/experiment-stats", path) || Mounted("/api/experiment-export.csv", path) ||
    (Mounted("/api/experiment-data", path) && (verb == "GET" || verb == "DELETE"))
  }

  /** A mount written in lower case. */
  predicate LowerCase(s: string) {
    forall i :: 0 <= i < |s| ==> !('A' <= s[i] <= 'Z')
  }

  /** A lower-case mount matches itself and everything below it. */
  lemma MountedAtAndBelow(mount: string, rest: string)
    requires LowerCase(mount)
    ensures Mounted(mount, mount) && Mounted(mount, mount + "/" + rest)
  {
    var below := mount + "/" + rest;
    assert forall i :: 0 <= i < |mount| + 1 ==> below[i] == (mount + "/")[i];
  }

  lemma DataMountsLowerCase()
    ensures LowerCase("/api/experiment-data") && LowerCase("/api/product-level-export.csv")
  {
  }

  lemma GuardMountsLowerCase()
    ensures LowerCase("/admin") && LowerCase("/api/experiment-stats") && LowerCase("/api/experiment-export.csv")
  {
  }

  /** A path that differs from the mount at some position is outside it. */
  lemma NotMountedAt(mount: string, path: string, j: nat)
    requires j < |mount| && j < |path| && mount[j] != AsciiLower(path[j])
    ensures !Mounted(mount, path)
  {
    assert (mount + "/")[j] == mount[j];
  }

  /** As written, record reads, deletes, stats and the participant export are guarded. */
  lemma GuardTable()
    ensures Guarded("GET", "/api/experiment-data") && Guarded("DELETE", "/api/experiment-data")
    ensures Guarded("DELETE", "/api/experiment-data/abc") && Guarded("GET", "/api/experiment-stats")
    ensures Guarded("GET", "/api/experiment-export.csv") && Guarded("GET", "/admin")
  {
    DataMountsLowerCase();
    GuardMountsLowerCase();
    MountedAtAndBelow("/api/experiment-data", "abc");
    assert "/api/experiment-data" + "/" + "abc" == "/api/experiment-data/abc";
    MountedAtAndBelow("/api/experiment-stats", "");
    MountedAtAndBelow("/api/experiment-export.csv", "");
    MountedAtAndBelow("/admin", "");
  }

  /** Capitals in the path do not get a request past the guard. */
  lemma GuardTableCapitals()
    ensures Guarded("GET", "/ADMIN") && Guarded("DELETE", "/Admin")
  {
    assert Mounted("/admin", "/ADMIN");
    assert Mounted("/admin", "/Admin");
  }

  /** As written, submissions, group assignment and the item-level export pass without credentials. */
  lemma UnguardedTable()
    ensures !Guarded("POST", "/api/experiment-data") && !Guarded("GET", "/api/assign-group")
    ensures !Guarded("GET", "/api/product-level-export.csv")
  {
    NotGuarded("POST", "/api/experiment-data", 2, 16, 16, 0);
    NotGuarded("GET", "/api/assign-group", 2, 5, 5, 5);
    NotGuarded("GET", "/api/product-level-export.csv", 2, 5, 5, 5);
  }

  /**
   * A request outside the three unconditional mounts that is either not a
   * read or delete or outside the data mount, given differing positions.
   */
  lemma NotGuarded(verb: string, path: string, a: nat, b: nat, c: nat, d: nat)
    requires a < |path| && b < |path| && c < |path| && a < 6 && b < 21 && c < 26
    requires "/admin"[a] != AsciiLower(path[a]) && "/api/experiment-stats"[b] != AsciiLower(path[b])
    requires "/api/experiment-export.csv"[c] != AsciiLower(path[c])
    requires (verb != "GET" && verb != "DELETE") ||
             (d < 20 && d < |path| && "/api/experiment-data"[d] != AsciiLower(path[d]))
    ensures !Guarded(verb, path)
  {
    OutsideGuards(verb, path, a, b, c);
    if d < 20 && d < |path| && "/api/experiment-data"[d] != AsciiLower(path[d]) {
      NotMountedAt("/api/experiment-data", path, d);
    }
  }

  /** A path outside the three unconditional mounts, given a differing position for each. */
  lemma OutsideGuards(verb: string, path: string, a: nat, b: nat, c: nat)
    requires a < |path| && b < |path| && c < |path| && a < 6 && b < 21 && c < 26
    requires "/admin"[a] != AsciiLower(path[a]) && "/api/experiment-stats"[b] != AsciiLower(path[b])
    requires "/api/experiment-export.csv"[c] != AsciiLower(path[c])
    ensures !Mounted("/admin", path) && !Mounted("/api/experiment-stats", path) && !Mounted("/api/experiment-export.csv", path)
  {
    NotMountedAt("/admin", path, a);
    NotMountedAt("/api/experiment-stats", path, b);
    NotMountedAt("/api/experiment-export.csv", path, c);
  }

  /** The guard with the item-level export among the data-reading routes it protects. */
  predicate GuardedWithItemExport(verb: string, path: string) {
    Guarded(verb, path) || Mounted("/api/product-level-export.csv", path)
  }

  /** Corrected, both exports of participant data need the credentials; submissions and assignments still do not. */
  lemma ExportsGuarded()
    ensures GuardedWithItemExport("GET", "/api/product-level-export.csv") && GuardedWithItemExport("GET", "/api/experiment-export.csv")
    ensures !GuardedWithItemExport("POST", "/api/experiment-data") && !GuardedWithItemExport("GET", "/api/assign-group")
  {
    DataMountsLowerCase();
    GuardMountsLowerCase();
    MountedAtAndBelow("/api/product-level-export.csv", "");
    MountedAtAndBelow("/api/experiment-export.csv", "");
    UnguardedTable();
    NotMountedAt("/api/product-level-export.csv", "/api/experiment-data", 5);
    NotMountedAt("/api/product-level-export.csv", "/api/assign-group", 5);
  }

  /** The corrected guard protects everything the written one does. */
  lemma GuardWidened(verb: string, path: string)
    requires Guarded(verb, path)
    ensures GuardedWithItemExport(verb, path)
  {
  }
}
