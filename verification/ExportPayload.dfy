/**
 The job payload of the report-export queue in apps/api/src/monitoring/monitoring.service.ts:
 normalisation, the job summary that carries it, and decoding.

 JSON with UTF-8 and the calendar are parameters; base64url is written out (section 5 of RFC 4648).
 */
module ExportPayload {
  import opened Options
  import opened Text
  import opened Uniqueness

  // ---------- base64url ----------

  type Byte = b: int | 0 <= b < 256

  type Sextet = v: int | 0 <= v < 64

  predicate Base64Char(c: char) {
    'A' <= c <= 'Z' || 'a' <= c <= 'z' || '0' <= c <= '9' || c == '-' || c == '_'
  }

  predicate Base64Text(s: string) {
    forall i :: 0 <= i < |s| ==> Base64Char(s[i])
  }

  function CharOf(v: Sextet): (c: char)
    ensures Base64Char(c)
  {
    if v < 26 then 'A' + v as char
    else if v < 52 then 'a' + (v - 26) as char
    else if v < 62 then '0' + (v - 52) as char
    else if v == 62 then '-' else '_'
  }

  function ValueOf(c: char): Sextet
    requires Base64Char(c)
  {
    if 'A' <= c <= 'Z' then (c - 'A') as int
    else if 'a' <= c <= 'z' then (c - 'a') as int + 26
    else if '0' <= c <= '9' then (c - '0') as int + 52
    else if c == '-' then 62 else 63
  }

  lemma CharValue(v: Sextet)
    ensures ValueOf(CharOf(v)) == v
  {
  }

  /** Three bytes make four characters; a rest of one or two bytes makes two or three, without padding. */
  function Encode(bytes: seq<Byte>): string {
    if bytes == [] then ""
    else if |bytes| == 1 then
      [CharOf(bytes[0] / 4), CharOf(bytes[0] % 4 * 16)]
    else if |bytes| == 2 then
      [CharOf(bytes[0] / 4), CharOf(bytes[0] % 4 * 16 + bytes[1] / 16), CharOf(bytes[1] % 16 * 4)]
    else
      [CharOf(bytes[0] / 4), CharOf(bytes[0] % 4 * 16 + bytes[1] / 16), CharOf(bytes[1] % 16 * 4 + bytes[2] / 64),
       CharOf(bytes[2] % 64)] + Encode(bytes[3..])
  }

  /** A rest of a single character carries no byte. */
  function Decode(s: string): seq<Byte>
    requires Base64Text(s)
  {
    if |s| < 2 then []
    else
      var a, b := ValueOf(s[0]), ValueOf(s[1]);
      var first := a * 4 + b / 16;
      if |s| == 2 then [first]
      else
        var c := ValueOf(s[2]);
        var second := b % 16 * 16 + c / 4;
        if |s| == 3 then [first, second]
        else [first, second, c % 4 * 64 + ValueOf(s[3])] + Decode(s[4..])
  }

  lemma {:induction false} EncodeText(bytes: seq<Byte>)
    ensures Base64Text(Encode(bytes)) && (bytes != [] ==> Encode(bytes) != "")
    decreases |bytes|
  {
    if |bytes| > 2 {
      EncodeText(bytes[3..]);
    }
  }

  /** Joining the two parts of a byte that was split across sextets. */
  lemma JoinSextets(a: Byte, b: Byte, c: Byte)
    ensures var x, y := a % 4 * 16 + b / 16, b % 16 * 4 + c / 64;
            && 0 <= x < 64 && 0 <= y < 64
            && a / 4 * 4 + x / 16 == a && x % 16 * 16 + y / 4 == b && y % 4 * 64 + c % 64 == c
  {
    var x, y := a % 4 * 16 + b / 16, b % 16 * 4 + c / 64;
    assert b / 16 < 16 && c / 64 < 4;
    assert x / 16 == a % 4 && x % 16 == b / 16;
    assert y / 4 == b % 16 && y % 4 == c / 64;
  }

  /** The four characters of a full group. */
  lemma DecodeGroup(w: Sextet, x: Sextet, y: Sextet, z: Sextet, rest: string)
    requires Base64Text(rest)
    ensures var s := [CharOf(w), CharOf(x), CharOf(y), CharOf(z)] + rest;
            Base64Text(s) && Decode(s) == [w * 4 + x / 16, x % 16 * 16 + y / 4, y % 4 * 64 + z] + Decode(rest)
  {
    hide CharOf, ValueOf;
    CharValue(w);
    CharValue(x);
    CharValue(y);
    CharValue(z);
    var s := [CharOf(w), CharOf(x), CharOf(y), CharOf(z)] + rest;
    assert s[4..] == rest;
  }

  lemma DecodePair(w: Sextet, x: Sextet)
    ensures Base64Text([CharOf(w), CharOf(x)]) && Decode([CharOf(w), CharOf(x)]) == [w * 4 + x / 16]
  {
    hide CharOf, ValueOf;
    CharValue(w);
    CharValue(x);
  }

  lemma DecodeTriple(w: Sextet, x: Sextet, y: Sextet)
    ensures var s := [CharOf(w), CharOf(x), CharOf(y)];
            Base64Text(s) && Decode(s) == [w * 4 + x / 16, x % 16 * 16 + y / 4]
  {
    hide CharOf, ValueOf;
    CharValue(w);
    CharValue(x);
    CharValue(y);
  }

  lemma ThreeDecode(a: Byte, b: Byte, c: Byte, rest: string)
    requires Base64Text(rest)
    ensures 0 <= a % 4 * 16 + b / 16 < 64 && 0 <= b % 16 * 4 + c / 64 < 64
    ensures var s := [CharOf(a / 4), CharOf(a % 4 * 16 + b / 16), CharOf(b % 16 * 4 + c / 64), CharOf(c % 64)] + rest;
            Base64Text(s) && Decode(s) == [a, b, c] + Decode(rest)
  {
    hide CharOf, ValueOf, Decode;
    JoinSextets(a, b, c);
    DecodeGroup(a / 4, a % 4 * 16 + b / 16, b % 16 * 4 + c / 64, c % 64, rest);
  }

  /** Decoding inverts encoding on every byte string. */
  lemma {:induction false} DecodeEncode(bytes: seq<Byte>)
    ensures Base64Text(Encode(bytes)) && Decode(Encode(bytes)) == bytes
    decreases |bytes|
  {
    hide CharOf, ValueOf, Decode, Base64Text;
    if bytes == [] {
      DecodeNothing();
    } else if |bytes| == 1 {
      JoinSextets(bytes[0], 0, 0);
      DecodePair(bytes[0] / 4, bytes[0] % 4 * 16);
    } else if |bytes| == 2 {
      JoinSextets(bytes[0], bytes[1], 0);
      DecodeTriple(bytes[0] / 4, bytes[0] % 4 * 16 + bytes[1] / 16, bytes[1] % 16 * 4);
    } else {
      DecodeEncode(bytes[3..]);
      ThreeDecode(bytes[0], bytes[1], bytes[2], Encode(bytes[3..]));
      assert bytes == [bytes[0], bytes[1], bytes[2]] + bytes[3..];
    }
  }

  lemma DecodeNothing()
    ensures Base64Text("") && Decode("") == []
  {
  }

  // ---------- finding the payload in a summary ----------

  const MARKER := "payload="

  function ClassRun(s: string): (run: string)
    ensures Base64Text(run)
  {
    if s != "" && Base64Char(s[0]) then [s[0]] + ClassRun(s[1..]) else ""
  }

  /** The marker at the start of the text or after white space, followed by a payload character. */
  predicate MatchAt(s: string, i: nat)
    requires i <= |s|
  {
    (i == 0 || IsSpace(s[i - 1])) && MARKER <= s[i..] && ClassRun(s[i + |MARKER|..]) != ""
  }

  /** The captured text of the first match at or after a position. */
  function FindPayload(s: string, i: nat): (found: Option<string>)
    requires i <= |s|
    ensures found.Some? ==> Base64Text(found.value)
    decreases |s| - i
  {
    if MatchAt(s, i) then Some(ClassRun(s[i + |MARKER|..]))
    else if i == |s| then None
    else FindPayload(s, i + 1)
  }

  function Summary(unitCount: nat, format: string, encoded: string): string {
    "queued unidades=" + Decimal(unitCount) + (" formato=" + format) + " payload=" + encoded
  }

  /** No letter `p` of the text follows white space or starts the text. */
  predicate Calm(s: string) {
    forall i :: 0 <= i < |s| && s[i] == 'p' ==> i > 0 && !IsSpace(s[i - 1])
  }

  lemma CalmConcat(a: string, b: string)
    requires Calm(a) && Calm(b)
    ensures Calm(a + b)
  {
  }

  lemma {:induction false} SkipCalm(calm: string, rest: string, i: nat)
    requires Calm(calm) && i <= |calm|
    ensures FindPayload(calm + rest, i) == FindPayload(calm + rest, |calm|)
    decreases |calm| - i
  {
    if i < |calm| {
      var s := calm + rest;
      assert s[i] == calm[i] && (i > 0 ==> s[i - 1] == calm[i - 1]);
      assert MARKER <= s[i..] ==> s[i] == 'p';
      SkipCalm(calm, rest, i + 1);
    }
  }

  lemma {:induction false} ClassRunWhole(s: string)
    requires Base64Text(s)
    ensures ClassRun(s) == s
  {
    if s != "" {
      ClassRunWhole(s[1..]);
    }
  }

  lemma SummaryCalm(unitCount: nat, format: string)
    requires format == "pdf" || format == "docx"
    ensures Calm("queued unidades=" + Decimal(unitCount) + (" formato=" + format) + " ")
  {
    var digits, part := Decimal(unitCount), " formato=" + format;
    assert format == "pdf" ==> part == " formato=pdf";
    assert format == "docx" ==> part == " formato=docx";
    assert Calm(part);
    CalmConcat("queued unidades=", digits);
    CalmConcat("queued unidades=" + digits, part);
    CalmConcat("queued unidades=" + digits + part, " ");
  }

  /** The payload found in a job summary is the one that was put in. */
  lemma FindInSummary(unitCount: nat, format: string, encoded: string)
    requires format == "pdf" || format == "docx"
    requires Base64Text(encoded) && encoded != ""
    ensures FindPayload(Summary(unitCount, format, encoded), 0) == Some(encoded)
  {
    var calm := "queued unidades=" + Decimal(unitCount) + (" formato=" + format) + " ";
    var rest := MARKER + encoded;
    var s := calm + rest;
    assert Summary(unitCount, format, encoded) == s;
    SummaryCalm(unitCount, format);
    SkipCalm(calm, rest, 0);
    assert s[|calm|..] == rest && s[|calm| - 1] == ' ';
    assert s[|calm| + |MARKER|..] == encoded;
    ClassRunWhole(encoded);
    assert MatchAt(s, |calm|);
  }

  /** At this position the text has the marker, after white space or at its start, and the longest payload after it. */
  ghost predicate PayloadAt(s: string, i: nat, payload: string) {
    && i < |s| && (i == 0 || IsSpace(s[i - 1])) && payload != "" && Base64Text(payload)
    && exists rest :: s[i..] == "payload=" + payload + rest && (rest == "" || !Base64Char(rest[0]))
  }

  lemma {:induction false} ClassRunMeans(s: string)
    ensures ClassRun(s) <= s && (|ClassRun(s)| < |s| ==> !Base64Char(s[|ClassRun(s)|]))
  {
    if s != "" && Base64Char(s[0]) {
      ClassRunMeans(s[1..]);
      assert s == [s[0]] + s[1..];
    }
  }

  lemma MatchMeans(s: string, i: nat, payload: string)
    requires i <= |s|
    ensures PayloadAt(s, i, payload) <==> MatchAt(s, i) && payload == ClassRun(s[i + |MARKER|..])
  {
    if MARKER <= s[i..] {
      var tail := s[i + |MARKER|..];
      assert s[i..] == MARKER + tail;
      ClassRunMeans(tail);
      var run := ClassRun(tail);
      assert tail == run + tail[|run|..];
      assert MARKER + tail == "payload=" + run + tail[|run|..];
      if rest :| s[i..] == "payload=" + payload + rest && (rest == "" || !Base64Char(rest[0])) {
        assert tail == payload + rest;
        if Base64Text(payload) {
          RunOf(payload, rest);
        }
      }
    } else {
      forall rest ensures s[i..] != "payload=" + payload + rest {
        assert MARKER <= "payload=" + payload + rest;
      }
    }
  }

  lemma {:induction false} RunOf(payload: string, rest: string)
    requires Base64Text(payload) && (rest == "" || !Base64Char(rest[0]))
    ensures ClassRun(payload + rest) == payload
  {
    if payload == "" {
      assert payload + rest == rest;
    } else {
      assert (payload + rest)[1..] == payload[1..] + rest;
      RunOf(payload[1..], rest);
    }
  }

  /** From the first position on, this is the first that has a payload. */
  ghost predicate FirstPayload(s: string, from: nat, i: nat, payload: string) {
    from <= i && PayloadAt(s, i, payload) && forall j: nat, other :: from <= j < i ==> !PayloadAt(s, j, other)
  }

  lemma FirstEarlier(s: string, from: nat, i: nat, payload: string)
    requires FirstPayload(s, from + 1, i, payload) && forall other :: !PayloadAt(s, from, other)
    ensures FirstPayload(s, from, i, payload)
  {
    hide PayloadAt;
  }

  lemma NoneEarlier(s: string, from: nat)
    requires forall j: nat, other :: from + 1 <= j ==> !PayloadAt(s, j, other)
    requires forall other :: !PayloadAt(s, from, other)
    ensures forall j: nat, other :: from <= j ==> !PayloadAt(s, j, other)
  {
    hide PayloadAt;
  }

  /** Whatever a summary holds, the payload found is the first there is from the position on. */
  lemma {:induction false} FoundIsFirst(s: string, from: nat) returns (i: nat)
    requires from <= |s|
    ensures FindPayload(s, from).Some? ==> FirstPayload(s, from, i, FindPayload(s, from).value)
    ensures FindPayload(s, from).None? ==> forall j: nat, other :: from <= j ==> !PayloadAt(s, j, other)
    decreases |s| - from
  {
    i := from;
    if MatchAt(s, from) {
      MarkerFits(s, from);
      MatchMeans(s, from, ClassRun(s[from + |MARKER|..]));
      hide PayloadAt, MatchAt, ClassRun;
    } else {
      forall other ensures !PayloadAt(s, from, other) {
        MatchMeans(s, from, other);
      }
      hide PayloadAt, MatchAt, ClassRun, FirstPayload;
      if from == |s| {
        PastTheEnd(s);
      } else {
        i := FoundIsFirst(s, from + 1);
        if FindPayload(s, from).Some? {
          FirstEarlier(s, from, i, FindPayload(s, from).value);
        } else {
          NoneEarlier(s, from);
        }
      }
    }
  }

  lemma PastTheEnd(s: string)
    ensures forall j: nat, other :: |s| <= j ==> !PayloadAt(s, j, other)
  {
  }

  lemma MarkerFits(s: string, i: nat)
    requires i <= |s| && MatchAt(s, i)
    ensures i + |MARKER| <= |s|
  {
  }

  // ---------- normalisation ----------

  /** The request; the fields that normalisation copies are one value. */
  datatype Payload<X> = Payload(
    unitIds: seq<string>, from: Option<string>, to: Option<string>, format: string, includeCharts: Option<bool>,
    extra: X)

  /** Date parsing, ISO printing, and the instant seven calendar days earlier. */
  datatype Calendar = Calendar(parse: string -> Option<int>, iso: int -> string, weekBefore: int -> int)

  ghost predicate Faithful(cal: Calendar) {
    forall t :: cal.iso(t) != "" && cal.parse(cal.iso(t)) == Some(t)
  }

  datatype Failure = BadDate | BadRange | NoUnits | NoPayload | BadJson

  datatype Result<T> = Ok(value: T) | Err(error: Failure)

  function ParseDate(cal: Calendar, value: Option<string>, default: int): Option<int> {
    if value.None? || value.value == "" then Some(default) else cal.parse(value.value)
  }

  function TrimmedIds(ids: seq<string>): seq<string> {
    if ids == [] then []
    else (if Trim(ids[0]) == "" then [] else [Trim(ids[0])]) + TrimmedIds(ids[1..])
  }

  function Normalize<X>(cal: Calendar, now: int, p: Payload<X>): Result<Payload<X>> {
    var from := ParseDate(cal, p.from, cal.weekBefore(now));
    var to := ParseDate(cal, p.to, now);
    if from == None || to == None then Err(BadDate)
    else if from.value >= to.value then Err(BadRange)
    else
      var unitIds := Unique(TrimmedIds(p.unitIds));
      if unitIds == [] then Err(NoUnits)
      else Ok(Payload(unitIds, Some(cal.iso(from.value)), Some(cal.iso(to.value)),
                      if p.format == "docx" then "docx" else "pdf",
                      if p.includeCharts == None then Some(true) else p.includeCharts, p.extra))
  }

  predicate CleanIds(ids: seq<string>) {
    forall i :: 0 <= i < |ids| ==> ids[i] != "" && Trimmed(ids[i])
  }

  lemma {:induction false} TrimmedIdsClean(ids: seq<string>)
    ensures CleanIds(TrimmedIds(ids))
  {
    if ids != [] {
      TrimmedIdsClean(ids[1..]);
      var _, _ := TrimSplit(ids[0]);
    }
  }

  lemma {:induction false} TrimmedIdsIdentity(ids: seq<string>)
    requires CleanIds(ids)
    ensures TrimmedIds(ids) == ids
  {
    if ids != [] {
      TrimIdentity(ids[0]);
      TrimmedIdsIdentity(ids[1..]);
    }
  }

  lemma UniqueClean(ids: seq<string>)
    requires CleanIds(ids)
    ensures CleanIds(Unique(ids))
  {
    UniqueSound(ids);
    forall i | 0 <= i < |Unique(ids)| ensures Unique(ids)[i] != "" && Trimmed(Unique(ids)[i]) {
      assert Unique(ids)[i] in ids;
    }
  }

  /** A normalised payload is a fixed point, at whatever later time it is normalised again. */
  lemma NormalizeIdempotent<X>(cal: Calendar, now: int, later: int, p: Payload<X>)
    requires Faithful(cal) && Normalize(cal, now, p).Ok?
    ensures Normalize(cal, later, Normalize(cal, now, p).value) == Normalize(cal, now, p)
  {
    hide Unique, TrimmedIds, Trimmed;
    TrimmedIdsClean(p.unitIds);
    var ids := Unique(TrimmedIds(p.unitIds));
    UniqueSound(TrimmedIds(p.unitIds));
    UniqueClean(TrimmedIds(p.unitIds));
    TrimmedIdsIdentity(ids);
    UniqueIdentity(ids);
  }

  // ---------- what normalisation makes of a request ----------

  /** The id is asked for, first at this place of the list. */
  ghost predicate FirstAsked(ids: seq<string>, id: string, i: nat) {
    i < |ids| && Trim(ids[i]) == id && forall k :: 0 <= k < i ==> Trim(ids[k]) != id
  }

  /** A non-empty text that is somewhere in the list, trimmed. */
  ghost predicate Asked(ids: seq<string>, id: string) {
    id != "" && exists i :: 0 <= i < |ids| && Trim(ids[i]) == id
  }

  /** The ids are those asked for, each once, in the order in which they were first asked for. */
  ghost predicate SameIds(ids: seq<string>, kept: seq<string>) {
    && Distinct(kept) && (forall id :: id in kept <==> Asked(ids, id))
    && forall a, b, i: nat, j: nat :: 0 <= a < b < |kept| && FirstAsked(ids, kept[a], i) && FirstAsked(ids, kept[b], j)
         ==> i < j
  }

  predicate Given(value: Option<string>) {
    value.Some? && value.value != ""
  }

  /** The instants asked for: those of the given texts, else now and the week before. */
  ghost predicate RangeAsked<X>(cal: Calendar, now: int, p: Payload<X>, from: int, to: int) {
    && (if Given(p.from) then cal.parse(p.from.value) == Some(from) else from == cal.weekBefore(now))
    && (if Given(p.to) then cal.parse(p.to.value) == Some(to) else to == now)
  }

  /** A date was given that cannot be read. */
  ghost predicate UnreadableDate<X>(cal: Calendar, p: Payload<X>) {
    (Given(p.from) && cal.parse(p.from.value) == None) || (Given(p.to) && cal.parse(p.to.value) == None)
  }

  /** What a normalised payload keeps of the request. */
  ghost predicate Keeps<X>(cal: Calendar, now: int, p: Payload<X>, kept: Payload<X>) {
    && SameIds(p.unitIds, kept.unitIds) && kept.unitIds != []
    && kept.from.Some? && kept.to.Some?
    && (exists from, to :: RangeAsked(cal, now, p, from, to) && from < to
                           && cal.parse(kept.from.value) == Some(from) && cal.parse(kept.to.value) == Some(to))
    && (kept.format == "docx" <==> p.format == "docx") && kept.format in {"docx", "pdf"}
    && (p.includeCharts.Some? ==> kept.includeCharts == p.includeCharts)
    && (p.includeCharts.None? ==> kept.includeCharts == Some(true))
    && kept.extra == p.extra
  }

  /** The places, from one on, that the trimmed ids come from. */
  ghost predicate Places(ids: seq<string>, from: nat, trimmed: seq<string>, at: seq<nat>) {
    && |at| == |trimmed|
    && (forall k :: 0 <= k < |at| ==> from <= at[k] < |ids| && Trim(ids[at[k]]) == trimmed[k] != "")
    && (forall k, l :: 0 <= k < l < |at| ==> at[k] < at[l])
    && forall i: nat :: from <= i < |ids| && Trim(ids[i]) != "" ==> i in at
  }

  lemma {:induction false} TrimmedPlaces(ids: seq<string>, from: nat) returns (at: seq<nat>)
    requires from <= |ids|
    ensures Places(ids, from, TrimmedIds(ids[from..]), at)
    decreases |ids| - from
  {
    hide Trim;
    if from == |ids| {
      at := [];
    } else {
      at := TrimmedPlaces(ids, from + 1);
      assert ids[from..][1..] == ids[from + 1..];
      hide Places;
      if Trim(ids[from]) != "" {
        PlaceAdded(ids, from, TrimmedIds(ids[from + 1..]), at);
        at := [from] + at;
      } else {
        PlaceSkipped(ids, from, TrimmedIds(ids[from + 1..]), at);
        assert [] + TrimmedIds(ids[from + 1..]) == TrimmedIds(ids[from + 1..]);
      }
    }
  }

  lemma PlaceAdded(ids: seq<string>, from: nat, trimmed: seq<string>, at: seq<nat>)
    requires from < |ids| && Trim(ids[from]) != "" && Places(ids, from + 1, trimmed, at)
    ensures Places(ids, from, [Trim(ids[from])] + trimmed, [from] + at)
  {
    hide Trim;
    assert ([from] + at)[0] == from;
    forall i: nat | from < i < |ids| && Trim(ids[i]) != "" ensures i in [from] + at {
      assert i in at;
    }
  }

  lemma PlaceSkipped(ids: seq<string>, from: nat, trimmed: seq<string>, at: seq<nat>)
    requires from < |ids| && Trim(ids[from]) == "" && Places(ids, from + 1, trimmed, at)
    ensures Places(ids, from, trimmed, at)
  {
    hide Trim;
  }

  /** `Unique` keeps the order of first occurrence. */
  lemma {:induction false} UniqueInOrder<T>(items: seq<T>, a: nat, b: nat, i: nat, j: nat)
    requires a < b < |Unique(items)| && i < |items| && j < |items|
    requires items[i] == Unique(items)[a] && forall k :: 0 <= k < i ==> items[k] != items[i]
    requires items[j] == Unique(items)[b] && forall k :: 0 <= k < j ==> items[k] != items[j]
    ensures i < j
  {
    var init, last := items[..|items| - 1], items[|items| - 1];
    UniqueSound(init);
    UniqueSound(items);
    assert items == init + [last];
    if b < |Unique(init)| {
      assert items[i] in init && items[j] in init;
      var x :| 0 <= x < |init| && init[x] == items[i];
      var y :| 0 <= y < |init| && init[y] == items[j];
      assert items[x] == items[i] && items[y] == items[j];
      UniqueInOrder(init, a, b, i, j);
    } else {
      assert Unique(items)[a] in init;
      var x :| 0 <= x < |init| && init[x] == items[i];
      assert items[x] == items[i];
      LastPlace(items, j);
    }
  }

  lemma LastPlace<T>(items: seq<T>, j: nat)
    requires j < |items| && items[j] == items[|items| - 1] && items[|items| - 1] !in items[..|items| - 1]
    ensures j == |items| - 1
  {
    assert forall k :: 0 <= k < |items| - 1 ==> items[k] in items[..|items| - 1];
  }

  lemma IdsKept(ids: seq<string>)
    ensures SameIds(ids, Unique(TrimmedIds(ids)))
  {
    hide Trim, Unique, TrimmedIds, Distinct;
    var trimmed := TrimmedIds(ids);
    var kept := Unique(trimmed);
    var at := TrimmedPlaces(ids, 0);
    assert ids[0..] == ids;
    UniqueSound(trimmed);
    forall id ensures id in kept <==> Asked(ids, id) {
      if Asked(ids, id) {
        var i: nat :| i < |ids| && Trim(ids[i]) == id;
        assert i in at;
        var k :| 0 <= k < |at| && at[k] == i;
        assert trimmed[k] == id;
      }
      if id in trimmed {
        var k :| 0 <= k < |trimmed| && trimmed[k] == id;
        assert Trim(ids[at[k]]) == id;
      }
    }
    forall a, b, i: nat, j: nat |
      0 <= a < b < |kept| && FirstAsked(ids, kept[a], i) && FirstAsked(ids, kept[b], j)
      ensures i < j
    {
      assert kept[a] in kept && kept[b] in kept;
      var x := FirstTrimmed(ids, trimmed, at, kept[a], i);
      var y := FirstTrimmed(ids, trimmed, at, kept[b], j);
      UniqueInOrder(trimmed, a, b, x, y);
    }
  }

  /** The first place among the trimmed ids of an id first asked for at i. */
  lemma FirstTrimmed(ids: seq<string>, trimmed: seq<string>, at: seq<nat>, id: string, i: nat) returns (x: nat)
    requires Places(ids, 0, trimmed, at) && id != "" && FirstAsked(ids, id, i)
    ensures x < |trimmed| && trimmed[x] == id && forall k :: 0 <= k < x ==> trimmed[k] != id
  {
    hide Trim;
    assert i in at;
    x :| 0 <= x < |at| && at[x] == i;
  }

  /**
   Normalisation succeeds if and only if the given dates can be read, lie in order, and an id is asked for;
   else it fails for the first of these reasons.  A normalised payload keeps what was asked for.
   */
  lemma NormalizeMeans<X>(cal: Calendar, now: int, p: Payload<X>)
    requires Faithful(cal)
    ensures var result := Normalize(cal, now, p);
            && (result.Ok? ==> Keeps(cal, now, p, result.value))
            && (result == Err(BadDate) <==> UnreadableDate(cal, p))
            && (result == Err(BadRange) <==> exists from, to :: RangeAsked(cal, now, p, from, to) && to <= from)
            && (result == Err(NoUnits)
                <==> (forall id :: !Asked(p.unitIds, id))
                     && exists from, to :: RangeAsked(cal, now, p, from, to) && from < to)
            && (result.Err? ==> result.error in {BadDate, BadRange, NoUnits})
  {
    hide Unique, TrimmedIds, Asked, FirstAsked;
    IdsKept(p.unitIds);
    var kept := Unique(TrimmedIds(p.unitIds));
    assert kept == [] <==> forall id :: !Asked(p.unitIds, id) by {
      if kept != [] {
        assert kept[0] in kept;
        assert Asked(p.unitIds, kept[0]);
      }
    }
    hide SameIds;
    var from := ParseDate(cal, p.from, cal.weekBefore(now));
    var to := ParseDate(cal, p.to, now);
    assert UnreadableDate(cal, p) <==> from == None || to == None;
    if from.Some? && to.Some? {
      assert RangeAsked(cal, now, p, from.value, to.value);
    }
  }

  // ---------- the job summary ----------

  /** JSON text in UTF-8. */
  datatype Json<!P> = Json(render: P -> seq<Byte>, parse: seq<Byte> -> Option<P>)

  ghost predicate Invertible<P(!new)>(json: Json<P>) {
    forall p :: json.render(p) != [] && json.parse(json.render(p)) == Some(p)
  }

  function EncodeJob<X>(json: Json<Payload<X>>, p: Payload<X>, unitCount: nat): string {
    Summary(unitCount, p.format, Encode(json.render(p)))
  }

  function DecodeJob<X>(json: Json<Payload<X>>, cal: Calendar, now: int, summary: string): Result<Payload<X>> {
    match FindPayload(summary, 0)
    case None => Err(NoPayload)
    case Some(encoded) =>
      match json.parse(Decode(encoded))
      case None => Err(BadJson)
      case Some(p) => Normalize(cal, now, p)
  }

  /** A queued job decodes, at any time, to exactly the normalised payload that was enqueued. */
  lemma DecodeInvertsEncode<X(!new)>(json: Json<Payload<X>>, cal: Calendar, now: int, later: int, p: Payload<X>,
                                     unitCount: nat)
    requires Faithful(cal) && Invertible(json) && Normalize(cal, now, p).Ok?
    ensures var normal := Normalize(cal, now, p).value;
            DecodeJob(json, cal, later, EncodeJob(json, normal, unitCount)) == Ok(normal)
  {
    hide Summary, FindPayload, Encode, Decode;
    var normal := Normalize(cal, now, p).value;
    var bytes := json.render(normal);
    EncodeText(bytes);
    DecodeEncode(bytes);
    FindInSummary(unitCount, normal.format, Encode(bytes));
    NormalizeIdempotent(cal, now, later, p);
  }
}
