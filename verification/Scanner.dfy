/** The detection of a media type in the first bytes of a stream that arrives in chunks. */
module Scanners {
  import opened Wrappers

  newtype byte = b: int | 0 <= b < 256

  /** `off` counts hexadecimal digits; a question mark in `hex` stands for any digit. */
  datatype Signature = Signature(hex: string, off: nat, media: string)

  datatype ScanError = TypeMismatch | NotAcceptable

  /** `accept` is the negotiation of the accepted types, when there are any. */
  datatype Control = Control(claim: Option<string>, accept: Option<string -> bool>)

  datatype Verdict = Verdict(media: string, error: Option<ScanError>)

  const OCTETS := "application/octet-stream"

  const SIGNATURES := [
    Signature("ffd8ffe0", 0, "image/jpeg"),
    Signature("ffd8ffe1", 0, "image/jpeg"),
    Signature("ffd8ffe2", 0, "image/jpeg"),
    Signature("ffd8ffee", 0, "image/jpeg"),
    Signature("ffd8ffdb", 0, "image/jpeg"),
    Signature("89504e47", 0, "image/png"),
    Signature("47494638", 0, "image/gif"),
    Signature("52494646????????57454250", 0, "image/webp"),
    Signature("4a584c200d0a870a", 8, "image/jxl"),
    Signature("6674797068656963", 8, "image/heic"),
    Signature("6674797061766966", 8, "image/avif"),
    Signature("52494646????????41564920", 0, "video/avi"),
    Signature("52494646????????57415645", 0, "audio/wav")
  ]

  const HEADER_SIZE: nat := 12

  function Digit(n: nat): char
    requires n < 16
  {
    "0123456789abcdef"[n]
  }

  function Hex(bytes: seq<byte>): (s: string)
    ensures |s| == 2 * |bytes|
  {
    if bytes == [] then ""
    else [Digit(bytes[0] as int / 16), Digit(bytes[0] as int % 16)] + Hex(bytes[1..])
  }

  predicate Fits(s: Signature, header: string) {
    && s.off + |s.hex| <= |header|
    && forall k | 0 <= k < |s.hex| :: s.hex[k] == '?' || header[s.off + k] == s.hex[k]
  }

  /** The first signature that fits. */
  function Find(signatures: seq<Signature>, header: string): (s: Option<Signature>) {
    if signatures == [] then None
    else if Fits(signatures[0], header) then Some(signatures[0])
    else Find(signatures[1..], header)
  }

  predicate Known(media: string) {
    exists i | 0 <= i < |SIGNATURES| :: SIGNATURES[i].media == media
  }

  /** What is left of an error after a check that may set another one. */
  function Mismatch(control: Control, found: Option<Signature>, error: Option<ScanError>): Option<ScanError> {
    if control.claim == None || control.claim == Some(OCTETS) then error
    else if (if found.None? then Known(control.claim.value) else control.claim.value != found.value.media)
    then Some(TypeMismatch)
    else error
  }

  function Detect(control: Control, header: seq<byte>): Verdict {
    var found := Find(SIGNATURES, Hex(header));
    var media := if found.Some? then Some(found.value.media) else control.claim;
    var error := if media.Some? && control.accept.Some? && !control.accept.value(media.value) then Some(NotAcceptable) else None;
    Verdict(media.GetOr(OCTETS), Mismatch(control, found, error))
  }

  function Detector(control: Control): seq<byte> -> Verdict {
    header => Detect(control, header)
  }

  /** All at once: only the first bytes count, and there must be enough of them. */
  function OneShot(control: Control, bytes: seq<byte>): Verdict {
    Glance(Detector(control), bytes)
  }

  function Glance(detect: seq<byte> -> Verdict, bytes: seq<byte>): Verdict {
    if |bytes| < HEADER_SIZE then Verdict(OCTETS, None) else detect(bytes[..HEADER_SIZE])
  }

  // The scanner

  /** A destroyed stream gets no more chunks. */
  datatype State = State(size: nat, verdict: Verdict, position: nat, completed: bool, destroyed: bool, chunks: seq<seq<byte>>)

  function Concat(chunks: seq<seq<byte>>): seq<byte> {
    if chunks == [] then [] else Concat(chunks[..|chunks| - 1]) + chunks[|chunks| - 1]
  }

  const START := State(0, Verdict(OCTETS, None), 0, false, false, [])

  /** One chunk, for any way of looking at a header. */
  function Feed(detect: seq<byte> -> Verdict, s: State, buffer: seq<byte>): State
    requires s.completed || s.position < HEADER_SIZE
  {
    if s.completed then s.(size := s.size + |buffer|)
    else
      var taken := if s.position + |buffer| > HEADER_SIZE then buffer[..HEADER_SIZE - s.position] else buffer;
      var chunks, position := s.chunks + [taken], s.position + |taken|;
      if position == HEADER_SIZE
      then
        var verdict := detect(Concat(chunks));
        State(s.size + |buffer|, verdict, position, true, verdict.error.Some?, chunks)
      else State(s.size + |buffer|, s.verdict, position, false, s.destroyed, chunks)
  }

  function Deliver(detect: seq<byte> -> Verdict, s: State, buffer: seq<byte>): State
    requires s.completed || s.position < HEADER_SIZE
  {
    if s.destroyed then s else Feed(detect, s, buffer)
  }

  function Scan(control: Control, s: State, buffer: seq<byte>): State
    requires s.completed || s.position < HEADER_SIZE
  {
    Deliver(Detector(control), s, buffer)
  }

  class Scanner {
    const control: Control
    var size: nat
    var media: string
    var error: Option<ScanError>
    var position: nat
    var completed: bool
    var destroyed: bool
    var chunks: seq<seq<byte>>

    function Seen(): State
      reads this
    {
      State(size, Verdict(media, error), position, completed, destroyed, chunks)
    }

    /** Nothing is known about the stream before its header is complete. */
    ghost predicate Valid()
      reads this
    {
      && destroyed == error.Some?
      && (completed || (position < HEADER_SIZE && media == OCTETS && error == None))
    }

    constructor (control: Control)
      ensures Valid() && this.control == control && Seen() == START
    {
      this.control := control;
      size, media, error, position, completed, destroyed, chunks := 0, OCTETS, None, 0, false, false, [];
    }

    /** The stream hands chunks over until it is destroyed. */
    method Transform(buffer: seq<byte>)
      requires Valid()
      modifies this
      ensures Valid() && Seen() == Scan(control, old(Seen()), buffer)
    {
      if !destroyed {
        Process(buffer);
      }
    }

    method Process(buffer: seq<byte>)
      requires Valid()
      modifies this
      ensures Valid() && Seen() == Feed(Detector(control), old(Seen()), buffer)
    {
      size := size + |buffer|;
      if completed {
        return;
      }
      var taken := buffer;
      if position + |buffer| > HEADER_SIZE {
        taken := buffer[..HEADER_SIZE - position];
      }
      chunks := chunks + [taken];
      position := position + |taken|;
      if position == HEADER_SIZE {
        Complete();
      }
    }

    method Complete()
      requires error == None && media == OCTETS && !destroyed
      modifies this
      ensures var verdict := Detect(control, Concat(old(chunks)));
        Seen() == old(Seen()).(verdict := verdict, completed := true, destroyed := verdict.error.Some?)
    {
      var header := Hex(Concat(chunks));
      var signature := Find(SIGNATURES, header);
      var found := if signature.Some? then Some(signature.value.media) else control.claim;
      if found != None {
        Match(found.value);
        media := found.value;
      }
      Verify(signature);
      completed := true;
    }

    method Match(found: string)
      modifies this`completed, this`error, this`destroyed
      ensures control.accept.Some? && !control.accept.value(found) ==> completed && error == Some(NotAcceptable) && destroyed
      ensures !(control.accept.Some? && !control.accept.value(found)) ==>
                completed == old(completed) && error == old(error) && destroyed == old(destroyed)
    {
      if control.accept.Some? {
        if !control.accept.value(found) {
          Interrupt(NotAcceptable);
        }
      }
    }

    method Verify(signature: Option<Signature>)
      requires destroyed == error.Some?
      modifies this`completed, this`error, this`destroyed
      ensures error == Mismatch(control, signature, old(error)) && destroyed == error.Some?
    {
      if control.claim == None || control.claim == Some(OCTETS) {
        return;
      }
      var mismatch := if signature == None then Known(control.claim.value) else control.claim.value != signature.value.media;
      if mismatch {
        Interrupt(TypeMismatch);
      }
    }

    method Interrupt(e: ScanError)
      modifies this`completed, this`error, this`destroyed
      ensures completed && error == Some(e) && destroyed
    {
      completed := true;
      error := Some(e);
      destroyed := true;
    }
  }

  // Chunks do not matter

  /** What scanning keeps, for the bytes that have been sent; a destroyed stream has stopped counting them. */
  ghost predicate Reached(detect: seq<byte> -> Verdict, s: State, input: seq<byte>) {
    && (if s.destroyed then HEADER_SIZE <= s.size <= |input| else s.size == |input|)
    && s.verdict == Glance(detect, input)
    && s.completed == (|input| >= HEADER_SIZE) && s.destroyed == s.verdict.error.Some?
    && (!s.completed ==> s.position == |input| && Concat(s.chunks) == input)
  }

  lemma DeliveryReaches(detect: seq<byte> -> Verdict, s: State, input: seq<byte>, buffer: seq<byte>)
    requires Reached(detect, s, input)
    ensures Reached(detect, Deliver(detect, s, buffer), input + buffer)
  {
    if s.completed {
      assert (input + buffer)[..HEADER_SIZE] == input[..HEADER_SIZE];
    } else {
      var taken := if |input| + |buffer| > HEADER_SIZE then buffer[..HEADER_SIZE - |input|] else buffer;
      assert (s.chunks + [taken])[..|s.chunks|] == s.chunks;
      assert Concat(s.chunks + [taken]) == input + taken;
      assert |input + buffer| >= HEADER_SIZE ==> input + taken == (input + buffer)[..HEADER_SIZE];
      assert |input + buffer| < HEADER_SIZE ==> taken == buffer;
    }
  }

  function FeedAll(detect: seq<byte> -> Verdict, chunks: seq<seq<byte>>): (s: State)
    ensures s.completed || s.position < HEADER_SIZE
  {
    if chunks == [] then START
    else Deliver(detect, FeedAll(detect, chunks[..|chunks| - 1]), chunks[|chunks| - 1])
  }

  /** The scanner after these chunks. */
  function ScanAll(control: Control, chunks: seq<seq<byte>>): State {
    FeedAll(Detector(control), chunks)
  }

  lemma {:induction false} FeedingReaches(detect: seq<byte> -> Verdict, chunks: seq<seq<byte>>)
    ensures Reached(detect, FeedAll(detect, chunks), Concat(chunks))
  {
    if chunks != [] {
      var front, last := chunks[..|chunks| - 1], chunks[|chunks| - 1];
      FeedingReaches(detect, front);
      DeliveryReaches(detect, FeedAll(detect, front), Concat(front), last);
    }
  }

  /** However a stream is cut into chunks, type and error are those of looking at its first bytes once. */
  lemma ScanIsOneShot(control: Control, chunks: seq<seq<byte>>)
    ensures ScanAll(control, chunks).verdict == OneShot(control, Concat(chunks))
    ensures OneShot(control, Concat(chunks)).error == None ==> ScanAll(control, chunks).size == |Concat(chunks)|
  {
    FeedingReaches(Detector(control), chunks);
  }

  lemma ChunksDoNotMatter(control: Control, a: seq<seq<byte>>, b: seq<seq<byte>>)
    requires Concat(a) == Concat(b)
    ensures ScanAll(control, a).verdict == ScanAll(control, b).verdict
  {
    ScanIsOneShot(control, a);
    ScanIsOneShot(control, b);
  }

  lemma OneChunk(detect: seq<byte> -> Verdict, a: seq<byte>)
    ensures Concat([a]) == a && FeedAll(detect, [a]) == Deliver(detect, START, a)
  {
    assert [a][..0] == [];
  }

  lemma TwoChunks(detect: seq<byte> -> Verdict, a: seq<byte>, b: seq<byte>)
    ensures Concat([a, b]) == a + b && FeedAll(detect, [a, b]) == Deliver(detect, FeedAll(detect, [a]), b)
  {
    assert [a, b][..1] == [a];
    OneChunk(detect, a);
  }

  lemma CutsDiffer(detect: seq<byte> -> Verdict, header: seq<byte>, rest: seq<byte>)
    requires |header| == HEADER_SIZE && detect(header).error.Some?
    ensures Concat([header + rest]) == header + rest && Concat([header, rest]) == header + rest
    ensures FeedAll(detect, [header + rest]).size == |header + rest|
    ensures FeedAll(detect, [header, rest]).size == HEADER_SIZE
  {
    OneChunk(detect, header + rest);
    OneChunk(detect, header);
    TwoChunks(detect, header, rest);
    FeedingReaches(detect, [header]);
    assert header[..HEADER_SIZE] == header;
  }

  /** Two ways of cutting a refused stream that is longer than the header: whole, and behind the header. */
  lemma RefusedSizesDiffer(control: Control, bytes: seq<byte>)
    requires OneShot(control, bytes).error.Some?
    ensures |bytes| >= HEADER_SIZE
    ensures var whole, cut := [bytes], [bytes[..HEADER_SIZE], bytes[HEADER_SIZE..]];
      && Concat(whole) == bytes && Concat(cut) == bytes
      && ScanAll(control, whole).size == |bytes| && ScanAll(control, cut).size == HEADER_SIZE
      && (ScanAll(control, whole).size != ScanAll(control, cut).size <==> |bytes| > HEADER_SIZE)
  {
    assert bytes[..HEADER_SIZE] + bytes[HEADER_SIZE..] == bytes;
    CutsDiffer(Detector(control), bytes[..HEADER_SIZE], bytes[HEADER_SIZE..]);
  }

  const ZEROS: seq<byte> := [0, 0, 0, 0, 0, 0, 0, 0, 0, 0, 0, 0, 0]

  lemma {:induction false} HexOfZeros(bytes: seq<byte>)
    requires forall i | 0 <= i < |bytes| :: bytes[i] == 0
    ensures forall k | 0 <= k < 2 * |bytes| :: Hex(bytes)[k] == '0'
  {
    if bytes != [] {
      HexOfZeros(bytes[1..]);
    }
  }

  /** Thirteen zeros that claim to be an image are refused, with size 13 or 12. */
  lemma ZerosAreRefused()
    ensures var control := Control(Some("image/png"), None);
      && OneShot(control, ZEROS).error == Some(TypeMismatch)
      && ScanAll(control, [ZEROS]).size == 13 && ScanAll(control, [ZEROS[..12], ZEROS[12..]]).size == 12
      && ScanAll(control, [ZEROS]).size != ScanAll(control, [ZEROS[..12], ZEROS[12..]]).size
  {
    var control, header := Control(Some("image/png"), None), ZEROS[..HEADER_SIZE];
    HexOfZeros(header);
    forall j | 0 <= j < |SIGNATURES| ensures !Fits(SIGNATURES[j], Hex(header)) {
      assert SIGNATURES[j].hex[0] != '?' && SIGNATURES[j].hex[0] != '0';
    }
    var i := FindsFirst(SIGNATURES, Hex(header));
    assert SIGNATURES[5].media == "image/png";
    RefusedSizesDiffer(control, ZEROS);
  }

  /** The size does not depend on the cut exactly when the stream is not refused, or is no longer than the header. */
  lemma SizeIgnoresChunks(control: Control, bytes: seq<byte>)
    ensures (forall a, b | Concat(a) == Concat(b) == bytes :: ScanAll(control, a).size == ScanAll(control, b).size) <==>
            OneShot(control, bytes).error == None || |bytes| == HEADER_SIZE
  {
    forall a | Concat(a) == bytes ensures Reached(Detector(control), ScanAll(control, a), bytes) {
      FeedingReaches(Detector(control), a);
    }
    if OneShot(control, bytes).error.Some? {
      RefusedSizesDiffer(control, bytes);
    }
  }

  /** Too short a stream is never looked at, whatever was claimed or is accepted. */
  lemma ShortStreamsPass(control: Control, chunks: seq<seq<byte>>)
    requires |Concat(chunks)| < HEADER_SIZE
    ensures ScanAll(control, chunks).verdict == Verdict(OCTETS, None)
  {
    ScanIsOneShot(control, chunks);
  }

  /** The number that a hexadecimal digit stands for. */
  function Numeral(c: char): int {
    if c <= '9' then c as int - '0' as int else c as int - 'a' as int + 10
  }

  lemma HexTail(bytes: seq<byte>, k: nat)
    requires bytes != [] && 2 <= k < 2 * |bytes|
    ensures Hex(bytes)[k] == Hex(bytes[1..])[k - 2]
  {
  }

  lemma {:induction false} HexDigits(bytes: seq<byte>, i: nat)
    requires i < |bytes|
    ensures Hex(bytes)[2 * i] == Digit(bytes[i] as int / 16) && Hex(bytes)[2 * i + 1] == Digit(bytes[i] as int % 16)
  {
    if i > 0 {
      HexDigits(bytes[1..], i - 1);
      HexTail(bytes, 2 * i);
      HexTail(bytes, 2 * i + 1);
    }
  }

  /** Two digits for each byte, the higher one first. */
  lemma HexReads(bytes: seq<byte>, i: nat)
    requires i < |bytes|
    ensures 16 * Numeral(Hex(bytes)[2 * i]) + Numeral(Hex(bytes)[2 * i + 1]) == bytes[i] as int
    ensures 0 <= Numeral(Hex(bytes)[2 * i + 1]) < 16
  {
    HexDigits(bytes, i);
    DigitReads(bytes[i] as int / 16);
    DigitReads(bytes[i] as int % 16);
  }

  lemma DigitReads(n: nat)
    requires n < 16
    ensures Numeral(Digit(n)) == n
  {
  }

  /** The header is just long enough for every signature. */
  lemma HeaderHoldsSignatures()
    ensures forall i | 0 <= i < |SIGNATURES| :: SIGNATURES[i].off + |SIGNATURES[i].hex| <= 2 * HEADER_SIZE
    ensures exists i | 0 <= i < |SIGNATURES| :: SIGNATURES[i].off + |SIGNATURES[i].hex| == 2 * HEADER_SIZE
  {
    assert SIGNATURES[7].off + |SIGNATURES[7].hex| == 2 * HEADER_SIZE;
  }

  /**
   A signature fits a header exactly when this has the signature's digits at its place, where a question mark takes any;
   so it fits a header that ends with it.
   */
  lemma SignatureFits(s: Signature, before: string, digits: string, after: string)
    requires |before| == s.off && |digits| == |s.hex|
    ensures Fits(s, before + digits + after) <==> forall k | 0 <= k < |digits| :: digits[k] == s.hex[k] || s.hex[k] == '?'
    ensures Fits(s, before + s.hex)
  {
    var header := before + digits + after;
    assert forall k | 0 <= k < |digits| :: header[s.off + k] == digits[k];
  }

  lemma {:induction false} FindsFirst(signatures: seq<Signature>, header: string) returns (i: nat)
    ensures i <= |signatures| && forall j | 0 <= j < i :: !Fits(signatures[j], header)
    ensures i < |signatures| ==> Fits(signatures[i], header) && Find(signatures, header) == Some(signatures[i])
    ensures i == |signatures| ==> Find(signatures, header) == None
  {
    i := 0;
    if signatures != [] && !Fits(signatures[0], header) {
      i := FindsFirst(signatures[1..], header);
      i := i + 1;
    }
  }

  /**
    * A stream that is long enough is refused as mismatching exactly when it claims a type other than that of the first
    * fitting signature, or a type with signatures none of which fits.
    */
  lemma RefusesMismatch(control: Control, bytes: seq<byte>, i: nat)
    requires |bytes| >= HEADER_SIZE
    requires i <= |SIGNATURES| && forall j | 0 <= j < i :: !Fits(SIGNATURES[j], Hex(bytes[..HEADER_SIZE]))
    requires i < |SIGNATURES| ==> Fits(SIGNATURES[i], Hex(bytes[..HEADER_SIZE]))
    ensures var v := OneShot(control, bytes);
            && (v.error == Some(TypeMismatch) <==>
                && control.claim.Some? && control.claim.value != OCTETS
                && if i < |SIGNATURES| then control.claim.value != SIGNATURES[i].media else Known(control.claim.value))
            && (v.error == Some(NotAcceptable) ==> control.accept.Some? && !control.accept.value(v.media))
            && (v.error == None && control.accept.Some? && (i < |SIGNATURES| || control.claim.Some?) ==>
                control.accept.value(v.media))
            && v.media == if i < |SIGNATURES| then SIGNATURES[i].media else control.claim.GetOr(OCTETS)
  {
    var k := FindsFirst(SIGNATURES, Hex(bytes[..HEADER_SIZE]));
    assert k == i;
  }
}
