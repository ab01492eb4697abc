/** The pure helpers of the chat page (src/pages/Chat.jsx): message texts,
    JavaScript string semantics (`trim`, UTF-16 `length`, `includes`), the
    pill/bullet rendering tests, recorder MIME-type and file-extension
    choice, blob assembly and the loudness test of the silence detector. */
module ChatText {
  import opened Options

  // ---------------------------------------------------------------------
  // Messages and their fixed texts
  // ---------------------------------------------------------------------

  /** One transcript entry: `{ me, text }`; `me` marks the user's own messages. */
  datatype Message = Message(me: bool, text: string)

  const Greeting: string := "무엇을 도와드릴까요?\n예: ‘내일 비 오면 환기 알림 설정해줘’"
  const MicPermissionText: string := "마이크 권한을 허용해 주세요."
  const VoiceUserText: string := "🎤 (음성 메시지 전송)"
  const TranscriptPrefix: string := "📝 인식: "
  const VoiceNoAnswer: string := "(응답 없음)"
  const VoiceFailPrefix: string := "음성 전송 실패: "
  const AskNoAnswer: string := "응답 없음"
  const AskFailPrefix: string := "서버 연결 실패: "

  // ---------------------------------------------------------------------
  // JavaScript strings
  // ---------------------------------------------------------------------

  /** The characters `String.prototype.trim` and the regex class `\s` remove:
      ECMAScript WhiteSpace and LineTerminator. */
  predicate IsJsSpace(c: char): (b: bool)
    ensures c as int < 0x80 ==> (b <==> c == ' ' || '\t' <= c <= '\r')
    ensures b ==> c as int <= 0xFFFF
  {
    c == '\t' || c == '\n' || c == '\U{B}' || c == '\U{C}' || c == '\r' || c == ' '
    || c == '\U{A0}' || c == '\U{1680}' || ('\U{2000}' <= c <= '\U{200A}')
    || c == '\U{2028}' || c == '\U{2029}' || c == '\U{202F}' || c == '\U{205F}'
    || c == '\U{3000}' || c == '\U{FEFF}'
  }

  /** How many whitespace characters `s` starts with. */
  function LeadingSpaces(s: string): (k: nat)
    ensures k <= |s|
    ensures forall i :: 0 <= i < k ==> IsJsSpace(s[i])
    ensures k < |s| ==> !IsJsSpace(s[k])
  {
    if s != [] && IsJsSpace(s[0]) then 1 + LeadingSpaces(s[1..]) else 0
  }

  /** How many whitespace characters `s` ends with. */
  function TrailingSpaces(s: string): (k: nat)
    ensures k <= |s|
    ensures forall i :: |s| - k <= i < |s| ==> IsJsSpace(s[i])
    ensures k < |s| ==> !IsJsSpace(s[|s| - 1 - k])
  {
    if s != [] && IsJsSpace(s[|s| - 1]) then 1 + TrailingSpaces(s[..|s| - 1]) else 0
  }

  /** `s.trim()`: `s` without its leading and trailing whitespace. The result
      is empty exactly when `s` is all whitespace, which is when `!text`
      rejects it. */
  function Trim(s: string): (r: string)
    ensures LeadingSpaces(s) + |r| <= |s|
    ensures r == s[LeadingSpaces(s)..LeadingSpaces(s) + |r|]
    ensures forall i :: LeadingSpaces(s) + |r| <= i < |s| ==> IsJsSpace(s[i])
    ensures r != [] ==> !IsJsSpace(r[0]) && !IsJsSpace(r[|r| - 1])
    ensures r == [] <==> forall i :: 0 <= i < |s| ==> IsJsSpace(s[i])
  {
    var k := LeadingSpaces(s);
    var t := s[k..];
    var r := t[..|t| - TrailingSpaces(t)];
    assert forall i :: k + |r| <= i < |s| ==> IsJsSpace(s[i]) by {
      forall i | k + |r| <= i < |s| ensures IsJsSpace(s[i]) {
        assert s[i] == t[i - k];
      }
    }
    assert r != [] ==> r[0] == s[k];
    r
  }

  /** Trimming twice changes nothing more than trimming once. */
  lemma TrimIdempotent(s: string)
    ensures Trim(Trim(s)) == Trim(s)
  {
    var r := Trim(s);
    if r != [] {
      assert LeadingSpaces(r) == 0;
      assert TrailingSpaces(r) == 0;
    }
  }

  /** `s.length`: the number of UTF-16 code units; characters outside the
      Basic Multilingual Plane (such as emoji) take two. */
  function Utf16Length(s: string): (n: nat)
    ensures |s| <= n <= 2 * |s|
    ensures |s| == 1 ==> n == (if s[0] as int > 0xFFFF then 2 else 1)
    ensures (forall i :: 0 <= i < |s| ==> s[i] as int <= 0xFFFF) ==> n == |s|
  {
    if s == [] then 0
    else (if s[0] as int > 0xFFFF then 2 else 1) + Utf16Length(s[1..])
  }

  /** `isShort(t)`: the text fits in a pill — at most 12 UTF-16 units, one line. */
  function IsShort(t: string): (b: bool)
    ensures b <==> Utf16Length(t) <= 12 && '\n' !in t
    ensures b ==> |t| <= 12 && '\n' !in t
    ensures |t| <= 6 && '\n' !in t ==> b
    ensures (forall i :: 0 <= i < |t| ==> t[i] as int <= 0xFFFF) ==>
              (b <==> |t| <= 12 && '\n' !in t)
  {
    Utf16Length(t) <= 12 && '\n' !in t
  }

  /** The UTF-16 length of a concatenation is the sum of the lengths; with the
      one-character case of `Utf16Length` this fixes the count of any text. */
  lemma {:induction false} Utf16LengthConcat(a: string, b: string)
    ensures Utf16Length(a + b) == Utf16Length(a) + Utf16Length(b)
    decreases |a|
  {
    if a != [] {
      assert (a + b)[0] == a[0];
      assert (a + b)[1..] == a[1..] + b;
      Utf16LengthConcat(a[1..], b);
    } else {
      assert a + b == b;
    }
  }

  /** Seven emoji are seven characters but fourteen UTF-16 units: not short,
      although a character count would call them short. */
  lemma SevenEmojiAreNotShort()
    ensures |"😀😀😀😀😀😀😀"| == 7 && !IsShort("😀😀😀😀😀😀😀")
  {
    var e := "😀";
    var t := "😀😀😀😀😀😀😀";
    assert t == e + e + e + e + e + e + e;
    assert Utf16Length(e) == 2;
    Utf16LengthConcat(e, e);
    Utf16LengthConcat(e + e, e);
    Utf16LengthConcat(e + e + e, e);
    Utf16LengthConcat(e + e + e + e, e);
    Utf16LengthConcat(e + e + e + e + e, e);
    Utf16LengthConcat(e + e + e + e + e + e, e);
  }

  /** `line.trim().startsWith("- ")`: whether a message line is a bullet. */
  function IsBullet(line: string): (b: bool)
    ensures b ==> exists i :: 0 <= i < |line| - 1 && line[i] == '-' && line[i + 1] == ' '
    ensures b <==> |Trim(line)| >= 2 && Trim(line)[0] == '-' && Trim(line)[1] == ' '
  {
    var t := Trim(line);
    var b := |t| >= 2 && t[..2] == "- ";
    assert b ==> line[LeadingSpaces(line)] == '-' && line[LeadingSpaces(line) + 1] == ' ';
    b
  }

  /** `s.includes(p)`. */
  predicate Contains(s: string, p: string): (b: bool)
    ensures b <==> exists i :: 0 <= i && OccursAt(s, p, i)
    decreases |s|
  {
    if p <= s then
      assert OccursAt(s, p, 0);
      true
    else if s == [] then false
    else
      assert !OccursAt(s, p, 0) by {
        if |p| <= |s| {
          assert s[0..|p|] == s[..|p|];
        }
      }
      assert forall j: nat :: OccursAt(s[1..], p, j) <==> OccursAt(s, p, j + 1) by {
        forall j: nat ensures OccursAt(s[1..], p, j) <==> OccursAt(s, p, j + 1) {
          if j + 1 + |p| <= |s| {
            assert s[1..][j..j + |p|] == s[j + 1..j + 1 + |p|];
          }
        }
      }
      assert forall i: nat :: 1 <= i && OccursAt(s, p, i) ==> OccursAt(s[1..], p, i - 1);
      Contains(s[1..], p)
  }

  /** `p` occurs in `s` starting at index `i`. */
  predicate OccursAt(s: string, p: string, i: nat)
  {
    i + |p| <= |s| && s[i..i + |p|] == p
  }

  // ---------------------------------------------------------------------
  // Rendering of one message line (the bullet marker)
  // ---------------------------------------------------------------------

  /** How a line of a long message is laid out: a bulleted item or a paragraph. */
  datatype LineView = BulletLine(shown: string) | PlainLine(shown: string)

  // The replacement as written, `line.replace(/^-\\s*/, "")`: in a regex
  // literal `\\` is a literal backslash, so it removes a leading "-\" and
  // any run of letter `s` after it, and nothing from "- item".
  function StripBulletAsWritten(line: string): (r: string)
    ensures "-\\" <= line ==> |r| <= |line| - 2
    ensures !("-\\" <= line) ==> r == line
  {
    if |line| >= 2 && line[..2] == "-\\" then DropLetterS(line[2..]) else line
  }

  function DropLetterS(s: string): (r: string)
    ensures |r| <= |s| && r == s[|s| - |r|..]
    ensures r != [] ==> r[0] != 's'
    ensures forall i :: 0 <= i < |s| - |r| ==> s[i] == 's'
  {
    if s != [] && s[0] == 's' then DropLetterS(s[1..]) else s
  }

  // The evident intent, `/^-\s*/`: drop a leading dash and the whitespace after it.
  function StripBullet(line: string): (r: string)
    ensures line != [] && line[0] == '-' ==>
              |r| < |line| && (r == [] || !IsJsSpace(r[0])) && r == line[|line| - |r|..]
    ensures line == [] || line[0] != '-' ==> r == line
  {
    if line != [] && line[0] == '-' then line[1..][LeadingSpaces(line[1..])..] else line
  }

  /** The row layout for one line, with the corrected marker removal. */
  function RenderLine(line: string): (v: LineView)
    ensures v.BulletLine? <==> IsBullet(line)
    ensures v.PlainLine? ==> v.shown == line
  {
    if IsBullet(line) then BulletLine(StripBullet(line)) else PlainLine(line)
  }

  /** The row layout for one line as the page writes it. */
  function RenderLineAsWritten(line: string): (v: LineView)
    ensures v.BulletLine? <==> IsBullet(line)
    ensures v.PlainLine? ==> v.shown == line
  {
    if IsBullet(line) then BulletLine(StripBulletAsWritten(line)) else PlainLine(line)
  }

  /** As written, a bullet line that starts with "- " keeps its dash: the
      bullet dot is drawn and the "- " is shown after it. */
  lemma AsWrittenKeepsDash(body: string)
    ensures IsBullet("- " + body) ==> RenderLineAsWritten("- " + body) == BulletLine("- " + body)
    ensures RenderLineAsWritten("- 환기") == BulletLine("- 환기")
  {
    var line := "- " + body;
    assert line[1] == ' ';
    assert !("-\\" <= line);
    assert StripBulletAsWritten(line) == line;
    SampleLineIsBullet();
    assert StripBulletAsWritten("- 환기") == "- 환기" by {
      assert "- 환기"[1] == ' ';
    }
  }

  /** The sample line "- 환기" passes the bullet test. */
  lemma SampleLineIsBullet()
    ensures IsBullet("- 환기")
  {
    assert LeadingSpaces("- 환기") == 0;
    assert TrailingSpaces("- 환기") == 0;
  }

  /** Corrected, a line made of a dash, some whitespace and a body that does
      not start with whitespace shows exactly the body. */
  lemma {:induction false} StripBulletShowsBody(ws: string, body: string)
    requires forall i :: 0 <= i < |ws| ==> IsJsSpace(ws[i])
    requires body == [] || !IsJsSpace(body[0])
    ensures StripBullet("-" + ws + body) == body
    ensures RenderLine("- 환기") == BulletLine("환기")
  {
    var line := "-" + ws + body;
    assert line[1..] == ws + body;
    LeadingSpacesOfPrefix(ws, body);
    assert (ws + body)[|ws|..] == body;
    SampleLineIsBullet();
    assert StripBullet("- 환기") == "환기" by {
      assert "- 환기"[1..] == " 환기";
      assert LeadingSpaces(" 환기") == 1 by {
        assert " 환기"[1..] == "환기";
        assert LeadingSpaces("환기") == 0;
      }
    }
  }

  lemma {:induction false} LeadingSpacesOfPrefix(ws: string, body: string)
    requires forall i :: 0 <= i < |ws| ==> IsJsSpace(ws[i])
    requires body == [] || !IsJsSpace(body[0])
    ensures LeadingSpaces(ws + body) == |ws|
    decreases |ws|
  {
    if ws != [] {
      assert (ws + body)[1..] == ws[1..] + body;
      LeadingSpacesOfPrefix(ws[1..], body);
    }
  }

  // ---------------------------------------------------------------------
  // Recording format
  // ---------------------------------------------------------------------

  const OggOpus: string := "audio/ogg;codecs=opus"
  const WebmOpus: string := "audio/webm;codecs=opus"
  const DefaultBlobType: string := "audio/webm"

  /** `pickMime()`: Ogg/Opus if the platform records it, else WebM/Opus, else
      "" (the browser chooses). `supported` is `MediaRecorder.isTypeSupported`. */
  function PickMime(supported: string -> bool): (m: string)
    ensures m == OggOpus || m == WebmOpus || m == ""
    ensures m != "" ==> supported(m)
    ensures supported(OggOpus) ==> m == OggOpus
    ensures m == WebmOpus <==> !supported(OggOpus) && supported(WebmOpus)
    ensures m == "" <==> !supported(OggOpus) && !supported(WebmOpus)
  {
    if supported(OggOpus) then OggOpus
    else if supported(WebmOpus) then WebmOpus
    else ""
  }

  /** `mr.mimeType || "audio/webm"`: the type the sealed blob carries. */
  function BlobType(recorderType: string): (t: string)
    ensures t != ""
    ensures recorderType != "" ==> t == recorderType
  {
    if recorderType != "" then recorderType else DefaultBlobType
  }

  /** The upload's file extension chosen from the blob type. */
  function Extension(t: string): (e: string)
    ensures e == "ogg" <==> Contains(t, "ogg")
    ensures e == "wav" <==> !Contains(t, "ogg") && Contains(t, "wav")
    ensures e == "webm" <==> !Contains(t, "ogg") && !Contains(t, "wav")
  {
    if Contains(t, "ogg") then "ogg" else if Contains(t, "wav") then "wav" else "webm"
  }

  /** The upload is named after the container the recorder was asked for:
      `voice.ogg` for Ogg/Opus, `voice.webm` for WebM/Opus and for the
      default blob type. */
  lemma ExtensionOfRequestedTypes()
    ensures Extension(BlobType(OggOpus)) == "ogg"
    ensures Extension(BlobType(WebmOpus)) == "webm"
    ensures Extension(BlobType("")) == "webm"
  {
    ContainsAt(OggOpus, "ogg", 6);
    NoSmallWordIn(WebmOpus);
    NoSmallWordIn(DefaultBlobType);
  }

  /** An occurrence at any offset is found by `includes`. */
  lemma {:induction false} ContainsAt(s: string, p: string, i: nat)
    requires i <= |s| && p <= s[i..]
    ensures Contains(s, p)
    decreases i
  {
    if i > 0 {
      assert s[1..][i - 1..] == s[i..];
      ContainsAt(s[1..], p, i - 1);
    }
  }

  /** Neither "ogg" nor "wav" occurs in a string none of whose characters is 'g' or 'v'. */
  lemma {:induction false} NoSmallWordIn(s: string)
    requires 'g' !in s && 'v' !in s
    ensures !Contains(s, "ogg") && !Contains(s, "wav")
    decreases |s|
  {
    if s != [] {
      NoSmallWordIn(s[1..]);
      assert 'g' !in s[1..] && 'v' !in s[1..];
      assert !("ogg" <= s) && !("wav" <= s) by {
        if |s| >= 3 {
          assert s[1] in s && s[2] in s;
        }
      }
    }
  }

  // ---------------------------------------------------------------------
  // Audio data
  // ---------------------------------------------------------------------

  newtype byte = x: int | 0 <= x < 256

  /** The bytes of a `Blob`; a recorded chunk is one of these. */
  type Bytes = seq<byte>

  /** `new Blob(chunks)`: the chunks' bytes, concatenated in order. */
  function Flatten(chunks: seq<Bytes>): (b: Bytes)
    ensures chunks == [] ==> b == []
    ensures |chunks| == 1 ==> b == chunks[0]
  {
    if chunks == [] then [] else chunks[0] + Flatten(chunks[1..])
  }

  /** Concatenating two runs of chunks concatenates their bytes; in
      particular appending one chunk appends exactly its bytes. */
  lemma {:induction false} FlattenConcat(a: seq<Bytes>, b: seq<Bytes>)
    ensures Flatten(a + b) == Flatten(a) + Flatten(b)
    decreases |a|
  {
    if a != [] {
      assert (a + b)[0] == a[0];
      assert (a + b)[1..] == a[1..] + b;
      FlattenConcat(a[1..], b);
      calc {
        Flatten(a + b);
        a[0] + Flatten(a[1..] + b);
        a[0] + (Flatten(a[1..]) + Flatten(b));
      }
    } else {
      assert a + b == b;
    }
  }

  /** The total size of a sequence of chunks. */
  function TotalSize(chunks: seq<Bytes>): nat
  {
    if chunks == [] then 0 else |chunks[0]| + TotalSize(chunks[1..])
  }

  /** The sealed blob holds every byte of every chunk and nothing else. */
  lemma {:induction false} FlattenSize(chunks: seq<Bytes>)
    ensures |Flatten(chunks)| == TotalSize(chunks)
    decreases |chunks|
  {
    if chunks != [] {
      FlattenSize(chunks[1..]);
    }
  }

  /** `SILENCE_THRESHOLD`: the RMS level above which a frame counts as voiced. */
  const SilenceThreshold: real := 0.015

  /** `(data[i] - 128) / 128` squared, scaled by 128²: one sample's energy. */
  function SampleEnergy(b: byte): nat
  {
    (b as int - 128) * (b as int - 128)
  }

  /** Sum over a frame of the squared deviations from the midpoint 128. */
  function EnergySum(frame: seq<byte>): nat
  {
    if frame == [] then 0 else EnergySum(frame[..|frame| - 1]) + SampleEnergy(frame[|frame| - 1])
  }

  /** Every sample deviates by at most 128, so the normalised mean square
      (and the RMS) lies in [0, 1]. */
  lemma {:induction false} EnergySumBound(frame: seq<byte>)
    ensures EnergySum(frame) <= 16384 * |frame|
    decreases |frame|
  {
    if frame != [] {
      EnergySumBound(frame[..|frame| - 1]);
      var d := frame[|frame| - 1] as int - 128;
      SquareAtMost(if d >= 0 then d else -d, 128);
      assert SampleEnergy(frame[|frame| - 1]) == d * d <= 16384;
    }
  }

  lemma SquareAtMost(x: int, m: int)
    requires 0 <= x <= m
    ensures x * x <= m * m
  {
    assert x * x <= x * m;
    assert x * m <= m * m;
  }

  /** `rms > SILENCE_THRESHOLD` in exact arithmetic: since the root is
      monotone on non-negatives, the RMS exceeds the threshold exactly when
      the mean of `((b - 128) / 128)²` exceeds its square. An empty frame
      (RMS is NaN) is never voiced. */
  predicate IsVoicedFrame(frame: seq<byte>): (b: bool)
    ensures b <==> |frame| > 0 && 10000 * EnergySum(frame) > 36864 * |frame|
  {
    if |frame| == 0 then false
    else
      ScaledComparison(EnergySum(frame), |frame|);
      (EnergySum(frame) as real) / (16384.0 * |frame| as real) > SilenceThreshold * SilenceThreshold
  }

  /** The mean-square comparison, cleared of its denominators. */
  lemma ScaledComparison(e: nat, n: nat)
    requires n > 0
    ensures (e as real) / (16384.0 * n as real) > SilenceThreshold * SilenceThreshold
            <==> 10000 * e > 36864 * n
  {
    var d := 16384.0 * n as real;
    var q := (e as real) / d;
    assert d > 0.0;
    assert q * d == e as real;
    assert SilenceThreshold * SilenceThreshold == 0.000225;
    assert q > 0.000225 <==> q * d > 0.000225 * d;
    assert 0.000225 * d == 3.6864 * n as real;
    assert e as real > 3.6864 * n as real <==> (10000 * e) as real > (36864 * n) as real;
  }

  // ---------------------------------------------------------------------
  // Replies of the two exchanges
  // ---------------------------------------------------------------------

  /** Decimal digits of a number, as `${n}` prints it. */
  function NatToDecimal(n: nat): (s: string)
    ensures s != []
    ensures forall i :: 0 <= i < |s| ==> '0' <= s[i] <= '9'
    ensures s[0] == '0' ==> n == 0
  {
    var d := [(('0' as int) + n % 10) as char];
    if n < 10 then d else NatToDecimal(n / 10) + d
  }

  /** The number a string of decimal digits denotes. */
  function DecimalValue(s: string): nat
    requires forall i :: 0 <= i < |s| ==> '0' <= s[i] <= '9'
  {
    if s == [] then 0 else 10 * DecimalValue(s[..|s| - 1]) + (s[|s| - 1] as int - '0' as int)
  }

  /** The printed status reads back as the status. */
  lemma {:induction false} DecimalRoundTrip(n: nat)
    ensures DecimalValue(NatToDecimal(n)) == n
    decreases n
  {
    if n >= 10 {
      DecimalRoundTrip(n / 10);
      var s := NatToDecimal(n);
      assert s[..|s| - 1] == NatToDecimal(n / 10);
    }
  }

  /** What `fetch("/api/ask")` and `res.json()` produce: a response with its
      status and, when the body has one, the `answer` field; or a thrown
      error, with its `message` and its `String(err)` rendering. */
  datatype AskOutcome =
    | AskResponse(status: nat, answer: Option<string>)
    | AskThrown(message: string, rendered: string)

  /** `res.ok`. */
  predicate IsOkStatus(status: nat)
  {
    200 <= status <= 299
  }

  /** The bot message that closes a text exchange: the answer (or
      "응답 없음" when it is missing; an empty answer is kept, as `??` only
      replaces null), or "서버 연결 실패: " followed by `HTTP <status>` for a
      non-OK status or by the error's message (its rendering when the
      message is empty). */
  function AskReplyText(o: AskOutcome): (t: string)
    ensures o.AskResponse? && IsOkStatus(o.status) && o.answer.Some? ==> t == o.answer.value
    ensures o.AskResponse? && IsOkStatus(o.status) && o.answer.None? ==> t == AskNoAnswer
    ensures o.AskResponse? && !IsOkStatus(o.status) ==>
              t == AskFailPrefix + "HTTP " + NatToDecimal(o.status)
    ensures o.AskThrown? ==>
              t == AskFailPrefix + (if o.message != "" then o.message else o.rendered)
  {
    match o
    case AskResponse(status, answer) =>
      if !IsOkStatus(status) then AskFailPrefix + "HTTP " + NatToDecimal(status)
      else answer.GetOr(AskNoAnswer)
    case AskThrown(message, rendered) =>
      AskFailPrefix + (if message != "" then message else rendered)
  }

  /** A failed exchange is always reported with the failure prefix, and the
      status it reports can be read back. */
  lemma AskFailureIsReported(o: AskOutcome)
    requires o.AskThrown? || !IsOkStatus(o.status)
    ensures AskFailPrefix <= AskReplyText(o)
    ensures o.AskResponse? ==>
              var t := AskReplyText(o);
              var digits := t[|AskFailPrefix| + 5..];
              (forall i :: 0 <= i < |digits| ==> '0' <= digits[i] <= '9')
              && DecimalValue(digits) == o.status
  {
    if o.AskResponse? {
      var t := AskReplyText(o);
      assert t[|AskFailPrefix| + 5..] == NatToDecimal(o.status);
      DecimalRoundTrip(o.status);
    }
  }

  /** What `fetch("/api/voice")` and `res.json()` produce: the body's `text`
      and `answer` fields (the status is not checked), or a thrown error
      rendered by `String(err)`. */
  datatype VoiceOutcome =
    | VoiceResponse(transcript: Option<string>, answer: Option<string>)
    | VoiceThrown(rendered: string)

  /** The bot messages that close a voice exchange: the recognised text (a
      missing field prints as "undefined") and the answer, which falls back
      to "(응답 없음)" when missing or empty (`||`); or one failure message. */
  function VoiceReplyMessages(o: VoiceOutcome): (ms: seq<Message>)
    ensures forall i :: 0 <= i < |ms| ==> !ms[i].me
    ensures o.VoiceResponse? ==>
              |ms| == 2
              && ms[0].text == TranscriptPrefix + o.transcript.GetOr("undefined")
              && (o.answer.None? || o.answer.value == "" ==> ms[1].text == VoiceNoAnswer)
              && (o.answer.Some? && o.answer.value != "" ==> ms[1].text == o.answer.value)
    ensures o.VoiceThrown? ==> ms == [Message(false, VoiceFailPrefix + o.rendered)]
  {
    match o
    case VoiceResponse(transcript, answer) =>
      var shown := if answer.Some? && answer.value != "" then answer.value else VoiceNoAnswer;
      [Message(false, TranscriptPrefix + transcript.GetOr("undefined")), Message(false, shown)]
    case VoiceThrown(rendered) =>
      [Message(false, VoiceFailPrefix + rendered)]
  }
}
