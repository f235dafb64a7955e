/**
 * The SDP line builder: a writer that keeps the Session Description Protocol text
 * (RFC 4566) of a capture as a list of lines, starts with the session header and appends
 * one media description per `add_media` call.
 */
module Sdp {

  /** media::media_type; `Unknown` stands for every enumerator the writer does not serialise. */
  datatype MediaType = Video | Audio | AncillaryData | Unknown

  /**
   * media::network_media_description, reduced to what the writer reads. The destination
   * address is carried as the text ipv4::to_string gives for it.
   */
  datatype NetworkMediaDescription = NetworkMediaDescription(
    mediaType: MediaType,
    address: string,
    port: nat,
    payloadType: nat)

  /** sdp_global_settings. */
  datatype SdpGlobalSettings = SdpGlobalSettings(path: string, sessionName: string, sessionInfo: string)

  /** The std::invalid_argument raised by LIST_ENFORCE for a media kind the writer cannot serialise. */
  datatype SdpError = UnsupportedMediaKind

  datatype Outcome = Pass | Fail(error: SdpError)

  const InfoSuffix: string := ", GENERATED by EBU-LIST (some params like media clock are hardcoded)."
  /** RFC 7273 media clock and reference clock attributes, fixed for every stream. */
  const MediaClockLine: string := "a=mediaclk:direct=0"
  /** The attribute prefix stays a separate literal so that proofs can read the line's first two characters. */
  const RefClockLine: string := "a=" + "ts-refclk:ptp=IEEE1588-2008:00-00-00-00-00-00-00-00:00"

  predicate Supported(t: MediaType)
  {
    t == Video || t == Audio || t == AncillaryData
  }

  /** The media field of the m= line, chosen as the writer's conditional chooses it. */
  function KindName(t: MediaType): string
  {
    if t == Video then "video" else if t == Audio then "audio" else "ancillary"
  }

  function DigitChar(d: nat): char
    requires d < 10
  {
    ('0' as int + d) as char
  }

  predicate IsDigit(c: char)
  {
    '0' <= c <= '9'
  }

  /** The decimal text of n, as the formatting library writes an unsigned integer. */
  function Decimal(n: nat): (s: string)
    ensures |s| >= 1 && (forall i :: 0 <= i < |s| ==> IsDigit(s[i]))
    ensures s[0] == '0' ==> n == 0
    decreases n
  {
    if n < 10 then [DigitChar(n)] else Decimal(n / 10) + [DigitChar(n % 10)]
  }

  /** The number a string of decimal digits denotes. */
  function DecimalValue(s: string): nat
    requires forall i :: 0 <= i < |s| ==> IsDigit(s[i])
  {
    if |s| == 0 then 0 else DecimalValue(s[..|s| - 1]) * 10 + DigitValue(s[|s| - 1])
  }

  function DigitValue(c: char): (d: nat)
    requires IsDigit(c)
    ensures d < 10
  {
    c as int - '0' as int
  }

  /** The decimal text of a number reads back as that number. */
  lemma {:induction false} DecimalRoundTrip(n: nat)
    ensures DecimalValue(Decimal(n)) == n
    decreases n
  {
    var s := Decimal(n);
    if n >= 10 {
      DecimalRoundTrip(n / 10);
      assert s[..|s| - 1] == Decimal(n / 10);
      DigitRoundTrip(n % 10);
    } else {
      DigitRoundTrip(n);
    }
  }

  lemma DigitRoundTrip(d: nat)
    requires d < 10
    ensures DigitValue(DigitChar(d)) == d
  {
  }

  /** "m=<media> <port> RTP/AVP <payload type>" (RFC 4566 section 5.14). */
  function MediaLine(m: NetworkMediaDescription): string
  {
    "m=" + KindName(m.mediaType) + " " + Decimal(m.port) + " RTP/AVP " + Decimal(m.payloadType)
  }

  /** "c=IN IP4 <address>/32" (RFC 4566 section 5.7). */
  function ConnectionLine(m: NetworkMediaDescription): string
  {
    "c=IN IP4 " + m.address + "/32"
  }

  /** The session-level lines the constructor writes: v=, o=, s=, i=, t= and a=recvonly. */
  function HeaderLines(settings: SdpGlobalSettings): seq<string>
  {
    ["v=0",
     "o=- 1 1 IN IP4 0.0.0.0",
     "s=" + settings.sessionName,
     "i=" + settings.sessionInfo + InfoSuffix,
     "t=0 0",
     "a=recvonly"]
  }

  /** The four lines one add_media call appends. */
  function MediaBlock(m: NetworkMediaDescription): seq<string>
  {
    [MediaLine(m), ConnectionLine(m), MediaClockLine, RefClockLine]
  }

  function Blocks(ms: seq<NetworkMediaDescription>): seq<string>
  {
    if ms == [] then [] else Blocks(ms[..|ms| - 1]) + MediaBlock(ms[|ms| - 1])
  }

  /** The text a writer holds after construction and a successful add_media for each of ms, in order. */
  function Document(settings: SdpGlobalSettings, ms: seq<NetworkMediaDescription>): seq<string>
  {
    HeaderLines(settings) + Blocks(ms)
  }

  /** The writer's conditional names the three supported kinds apart. */
  lemma KindNamesDistinct(t1: MediaType, t2: MediaType)
    requires Supported(t1) && Supported(t2)
    ensures KindName(t1) == KindName(t2) <==> t1 == t2
  {
  }

  /** Each media description adds one more block after the ones before it. */
  lemma DocumentAppend(settings: SdpGlobalSettings, ms: seq<NetworkMediaDescription>, m: NetworkMediaDescription)
    ensures Document(settings, ms + [m]) == Document(settings, ms) + MediaBlock(m)
  {
    assert (ms + [m])[..|ms|] == ms;
  }

  /**
   * Layout: six header lines, then for the k-th media its m= line at 6 + 4k, its c= line after
   * it and the two clock attributes after that.
   */
  lemma {:induction false} DocumentLayout(settings: SdpGlobalSettings, ms: seq<NetworkMediaDescription>, k: nat)
    requires k < |ms|
    ensures |Document(settings, ms)| == 6 + 4 * |ms|
    ensures Document(settings, ms)[6 + 4 * k .. 10 + 4 * k] == MediaBlock(ms[k])
  {
    HeaderLength(settings);
    BlocksLayout(ms, k);
    SliceOfRight(HeaderLines(settings), Blocks(ms), 6 + 4 * k, 10 + 4 * k);
  }

  lemma HeaderLength(settings: SdpGlobalSettings)
    ensures |HeaderLines(settings)| == 6
  {
  }

  lemma {:induction false} BlocksLayout(ms: seq<NetworkMediaDescription>, k: nat)
    requires k < |ms|
    ensures |Blocks(ms)| == 4 * |ms|
    ensures Blocks(ms)[4 * k .. 4 * k + 4] == MediaBlock(ms[k])
  {
    var pre := ms[..|ms| - 1];
    BlocksLength(pre);
    if k < |ms| - 1 {
      BlocksLayout(pre, k);
      SliceOfLeft(Blocks(pre), MediaBlock(ms[|ms| - 1]), 4 * k, 4 * k + 4);
    } else {
      SliceOfRight(Blocks(pre), MediaBlock(ms[|ms| - 1]), 4 * k, 4 * k + 4);
    }
  }

  lemma SliceOfLeft<T>(a: seq<T>, b: seq<T>, i: nat, j: nat)
    requires i <= j <= |a|
    ensures (a + b)[i..j] == a[i..j]
  {
  }

  lemma SliceOfRight<T>(a: seq<T>, b: seq<T>, i: nat, j: nat)
    requires |a| <= i <= j <= |a| + |b|
    ensures (a + b)[i..j] == b[i - |a|..j - |a|]
  {
  }

  lemma {:induction false} BlocksLength(ms: seq<NetworkMediaDescription>)
    ensures |Blocks(ms)| == 4 * |ms|
  {
    if ms != [] {
      BlocksLength(ms[..|ms| - 1]);
    }
  }

  predicate IsMediaLine(line: string)
  {
    |line| >= 2 && line[0] == 'm' && line[1] == '='
  }

  /** How many of the lines open a media description. */
  function MediaLineCount(lines: seq<string>): nat
  {
    if lines == [] then 0
    else MediaLineCount(lines[..|lines| - 1]) + (if IsMediaLine(lines[|lines| - 1]) then 1 else 0)
  }

  lemma {:induction false} MediaLineCountAppend(a: seq<string>, b: seq<string>)
    ensures MediaLineCount(a + b) == MediaLineCount(a) + MediaLineCount(b)
    decreases |b|
  {
    if b == [] {
      assert a + b == a;
    } else {
      var c := a + b;
      MediaLineCountAppend(a, b[..|b| - 1]);
      assert c[..|c| - 1] == a + b[..|b| - 1];
      assert c[|c| - 1] == b[|b| - 1];
    }
  }

  lemma CountStep(lines: seq<string>, k: nat)
    requires k < |lines|
    ensures MediaLineCount(lines[..k + 1]) == MediaLineCount(lines[..k]) + (if IsMediaLine(lines[k]) then 1 else 0)
  {
    assert lines[..k + 1][..k] == lines[..k];
  }

  /** Four lines of which only the first opens a media description. */
  lemma OneOfFour(lines: seq<string>)
    requires |lines| == 4 && IsMediaLine(lines[0])
    requires !IsMediaLine(lines[1]) && !IsMediaLine(lines[2]) && !IsMediaLine(lines[3])
    ensures MediaLineCount(lines) == 1
  {
    CountStep(lines, 0);
    CountStep(lines, 1);
    CountStep(lines, 2);
    CountStep(lines, 3);
    assert lines[..4] == lines;
  }

  lemma NoneOfSix(lines: seq<string>)
    requires |lines| == 6 && forall i :: 0 <= i < 6 ==> !IsMediaLine(lines[i])
    ensures MediaLineCount(lines) == 0
  {
    CountStep(lines, 0);
    CountStep(lines, 1);
    CountStep(lines, 2);
    CountStep(lines, 3);
    CountStep(lines, 4);
    CountStep(lines, 5);
    assert lines[..6] == lines;
  }

  /** The text holds exactly one m= line per media description added, and none in the header. */
  lemma OneMediaLinePerMedia(settings: SdpGlobalSettings, ms: seq<NetworkMediaDescription>)
    ensures MediaLineCount(Document(settings, ms)) == |ms|
  {
    MediaLineCountAppend(HeaderLines(settings), Blocks(ms));
    HeaderHasNoMediaLine(settings);
    BlocksMediaLines(ms);
  }

  lemma {:induction false} BlocksMediaLines(ms: seq<NetworkMediaDescription>)
    ensures MediaLineCount(Blocks(ms)) == |ms|
  {
    if ms != [] {
      var pre := ms[..|ms| - 1];
      BlocksMediaLines(pre);
      MediaLineCountAppend(Blocks(pre), MediaBlock(ms[|ms| - 1]));
      BlockHasOneMediaLine(ms[|ms| - 1]);
    }
  }

  lemma HeaderHasNoMediaLine(settings: SdpGlobalSettings)
    ensures MediaLineCount(HeaderLines(settings)) == 0
  {
    var h := HeaderLines(settings);
    assert h[0][0] == 'v' && h[1][0] == 'o' && h[2][0] == 's';
    assert h[3][0] == 'i' && h[4][0] == 't' && h[5][0] == 'a';
    NoneOfSix(h);
  }

  lemma BlockHasOneMediaLine(m: NetworkMediaDescription)
    ensures MediaLineCount(MediaBlock(m)) == 1
  {
    var b := MediaBlock(m);
    assert b[0][0] == 'm' && b[0][1] == '=';
    assert b[1][0] == 'c' && b[2][0] == 'a' && b[3][0] == 'a';
    OneOfFour(b);
  }

  /**
   * A writer built from settings and given the media in `media` by successful add_media
   * calls holds six header lines and then each media's block at 6 + 4k, in the order added.
   */
  lemma WriterLayout(w: SdpWriter, k: nat)
    requires w.Valid() && k < |w.media|
    ensures |w.lines| == 6 + 4 * |w.media|
    ensures w.lines[6 + 4 * k .. 10 + 4 * k] == MediaBlock(w.media[k])
  {
    DocumentLayout(w.settings, w.media, k);
  }

  /** Such a writer holds exactly one m= line per media added. */
  lemma WriterMediaLines(w: SdpWriter)
    requires w.Valid()
    ensures MediaLineCount(w.lines) == |w.media|
  {
    OneMediaLinePerMedia(w.settings, w.media);
  }

  /** sdp_writer: accumulates the lines of one session description. */
  class SdpWriter {
    /** Where `write` would put the file; kept, not used by the modelled operations. */
    const path: string
    var lines: seq<string>
    /** The settings the writer was built with and the media added to it so far. */
    ghost const settings: SdpGlobalSettings
    ghost var media: seq<NetworkMediaDescription>

    /** The lines are the document of the settings and the media added so far. */
    ghost predicate Valid()
      reads this
    {
      lines == Document(settings, media)
    }

    /** The session header, written once. */
    constructor (settings: SdpGlobalSettings)
      ensures path == settings.path
      ensures lines == HeaderLines(settings)
      ensures this.settings == settings && media == [] && Valid()
    {
      path := settings.path;
      lines := HeaderLines(settings);
      this.settings := settings;
      media := [];
      new;
      assert Document(settings, []) == HeaderLines(settings);
    }

    /** sdp(): the lines written so far, unchanged. */
    method GetSdp() returns (r: seq<string>)
      ensures r == lines
    {
      r := lines;
    }

    /** Rejects an unsupported kind before writing anything; otherwise appends the m= line. */
    method WriteMediaLine(m: NetworkMediaDescription) returns (o: Outcome)
      modifies this`lines
      ensures o == if Supported(m.mediaType) then Pass else Fail(UnsupportedMediaKind)
      ensures lines == if o.Pass? then old(lines) + [MediaLine(m)] else old(lines)
    {
      if !Supported(m.mediaType) {
        return Fail(UnsupportedMediaKind);
      }
      lines := lines + [MediaLine(m)];
      o := Pass;
    }

    method WriteConnectionLine(m: NetworkMediaDescription)
      modifies this`lines
      ensures lines == old(lines) + [ConnectionLine(m)]
    {
      lines := lines + [ConnectionLine(m)];
    }

    method WriteMediaClockLines()
      modifies this`lines
      ensures lines == old(lines) + [MediaClockLine, RefClockLine]
    {
      lines := lines + [MediaClockLine];
      lines := lines + [RefClockLine];
    }

    /**
     * add_media: for a supported kind appends the m=, c= and two clock lines; for any other
     * kind fails and leaves the lines as they were. Either way the lines stay the document
     * of the media added, which grows by m exactly when the call passes.
     */
    method AddMedia(m: NetworkMediaDescription) returns (o: Outcome)
      requires Valid()
      modifies this
      ensures o.Pass? <==> Supported(m.mediaType)
      ensures o.Fail? ==> o.error == UnsupportedMediaKind
      ensures lines == if o.Pass? then old(lines) + MediaBlock(m) else old(lines)
      ensures media == if o.Pass? then old(media) + [m] else old(media)
      ensures Valid()
    {
      o := WriteMediaLine(m);
      if o.Fail? {
        return;
      }
      WriteConnectionLine(m);
      WriteMediaClockLines();
      DocumentAppend(settings, media, m);
      media := media + [m];
    }
  }
}
