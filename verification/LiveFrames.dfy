/** The binary frame of a live sample: written by the agent, parsed by the live worker.  What
    encryption makes of the authenticated header is a parameter. */
module LiveFrames {
  import opened Options
  import opened Protobuf

  const MAX_LIVE_FRAME_BYTES: nat := 16_384
  const FRAME_HEADER_BYTES: nat := 48
  const AUTHENTICATED_HEADER_BYTES: nat := 44
  const TAG_BYTES: nat := 16
  const MAX_LIVE_SEQUENCE: nat := 1_000_000
  const MAGIC: seq<Byte> := [0x41, 0x50, 0x4c, 0x31]

  datatype Frame = Frame(
    session: seq<Byte>, machinePk: nat, sequence: nat, observedAt: nat, aad: seq<Byte>, ciphertext: seq<Byte>)

  // ---- big-endian numbers -------------------------------------------------------------------

  function Power256(width: nat): nat {
    if width == 0 then 1 else 256 * Power256(width - 1)
  }

  function BigEndian(n: nat, width: nat): (bytes: seq<Byte>)
    ensures |bytes| == width
  {
    if width == 0 then [] else BigEndian(n / 256, width - 1) + [n % 256]
  }

  function FromBigEndian(bytes: seq<Byte>): nat {
    if bytes == [] then 0 else 256 * FromBigEndian(bytes[..|bytes| - 1]) + bytes[|bytes| - 1]
  }

  lemma {:induction false} BigEndianInverts(n: nat, width: nat)
    requires n < Power256(width)
    ensures FromBigEndian(BigEndian(n, width)) == n
    decreases width
  {
    if width > 0 {
      BigEndianInverts(n / 256, width - 1);
      assert BigEndian(n, width)[..width - 1] == BigEndian(n / 256, width - 1);
    }
  }

  lemma {:induction false} FromBigEndianInverts(bytes: seq<Byte>)
    ensures FromBigEndian(bytes) < Power256(|bytes|) && BigEndian(FromBigEndian(bytes), |bytes|) == bytes
    decreases |bytes|
  {
    if bytes != [] {
      var init, last := bytes[..|bytes| - 1], bytes[|bytes| - 1];
      FromBigEndianInverts(init);
      var n: nat := FromBigEndian(init);
      assert (256 * n + last) / 256 == n && (256 * n + last) % 256 == last;
      assert bytes == init + [last];
    }
  }

  lemma Powers()
    ensures Power256(4) == 0x1_0000_0000 && Power256(8) == TWO_64
  {
    assert Power256(2) == 0x1_0000;
    assert Power256(4) == 0x1_0000_0000;
    assert Power256(6) == 0x1_0000_0000_0000;
  }

  // ---- the writer ---------------------------------------------------------------------------

  function Header(session: seq<Byte>, machinePk: nat, sequence: nat, observedAt: nat): seq<Byte> {
    MAGIC + session + BigEndian(machinePk, 8) + BigEndian(sequence, 8) + BigEndian(observedAt, 8)
  }

  function Written(frame: Frame): seq<Byte> {
    Header(frame.session, frame.machinePk, frame.sequence, frame.observedAt)
    + BigEndian(|frame.ciphertext|, 4) + frame.ciphertext
  }

  /** A frame the writer makes: its number and time are in bounds, its header is the one sealed over,
      and the ciphertext ends in a tag. */
  predicate IsWriters(f: Frame) {
    && |f.session| == 16 && f.machinePk < TWO_64
    && 0 < f.sequence <= MAX_LIVE_SEQUENCE && 0 < f.observedAt < 0x8000_0000_0000_0000
    && f.aad == Header(f.session, f.machinePk, f.sequence, f.observedAt)
    && TAG_BYTES <= |f.ciphertext| <= MAX_LIVE_FRAME_BYTES - FRAME_HEADER_BYTES
  }

  /** `seal_live_snapshot`: the header is both sealed over and sent. */
  method SealLiveSnapshot(session: seq<Byte>, machinePk: nat, sequence: nat, observedAt: int, sealOver: seq<Byte> -> seq<Byte>)
    returns (frame: Option<seq<Byte>>)
    requires |session| == 16 && machinePk < TWO_64 && observedAt < 0x8000_0000_0000_0000
    ensures frame.Some? ==> 0 < sequence <= MAX_LIVE_SEQUENCE && observedAt > 0
    ensures frame.Some? ==>
      var aad := Header(session, machinePk, sequence, observedAt);
      && frame.value == Written(Frame(session, machinePk, sequence, observedAt, aad, sealOver(aad)))
      && |frame.value| <= MAX_LIVE_FRAME_BYTES
      && (|sealOver(aad)| >= TAG_BYTES ==> IsWriters(Frame(session, machinePk, sequence, observedAt, aad, sealOver(aad))))
    ensures frame.None? && 0 < sequence <= MAX_LIVE_SEQUENCE && observedAt > 0 ==>
      FRAME_HEADER_BYTES + |sealOver(Header(session, machinePk, sequence, observedAt))| > MAX_LIVE_FRAME_BYTES
  {
    frame := None;
    if observedAt > 0 && sequence != 0 && sequence <= MAX_LIVE_SEQUENCE {
      var aad := MAGIC;
      aad := aad + session;
      aad := aad + BigEndian(machinePk, 8);
      aad := aad + BigEndian(sequence, 8);
      aad := aad + BigEndian(observedAt, 8);
      var ciphertext := sealOver(aad);
      if |ciphertext| < 0x1_0000_0000 {
        var bytes := aad;
        bytes := bytes + BigEndian(|ciphertext|, 4);
        bytes := bytes + ciphertext;
        if |bytes| <= MAX_LIVE_FRAME_BYTES { frame := Some(bytes); }
      }
    }
  }

  // ---- the reader ---------------------------------------------------------------------------

  function ReadUnsigned64(bytes: seq<Byte>, offset: nat): Option<nat>
    requires offset + 8 <= |bytes|
  {
    var n := FromBigEndian(bytes[offset..offset + 8]);
    if n > MAX_SAFE then None else Some(n)
  }

  /** `parseAgentLiveFrame`. */
  function ParseAgentLiveFrame(bytes: seq<Byte>): Option<Frame> {
    if |bytes| < FRAME_HEADER_BYTES + TAG_BYTES || |bytes| > MAX_LIVE_FRAME_BYTES || bytes[..4] != MAGIC then None
    else
      var length := FromBigEndian(bytes[44..48]);
      if length < TAG_BYTES || FRAME_HEADER_BYTES + length != |bytes| then None
      else
        match (ReadUnsigned64(bytes, 20), ReadUnsigned64(bytes, 28), ReadUnsigned64(bytes, 36))
        case (Some(machinePk), Some(sequence), Some(observedAt)) =>
          Some(Frame(bytes[4..20], machinePk, sequence, observedAt,
                     bytes[..AUTHENTICATED_HEADER_BYTES], bytes[FRAME_HEADER_BYTES..]))
        case _ => None
  }

  /** A frame the reader can hold: any number and time in the safe range. */
  predicate IsReadable(f: Frame) {
    && |f.session| == 16 && f.machinePk <= MAX_SAFE && f.sequence <= MAX_SAFE && f.observedAt <= MAX_SAFE
    && f.aad == Header(f.session, f.machinePk, f.sequence, f.observedAt)
    && TAG_BYTES <= |f.ciphertext| <= MAX_LIVE_FRAME_BYTES - FRAME_HEADER_BYTES
  }

  /** Where the parts of a written frame lie. */
  lemma Layout(f: Frame)
    requires |f.session| == 16
    ensures var bytes := Written(f);
      && |bytes| == FRAME_HEADER_BYTES + |f.ciphertext| && bytes[..4] == MAGIC && bytes[4..20] == f.session
      && bytes[20..28] == BigEndian(f.machinePk, 8) && bytes[28..36] == BigEndian(f.sequence, 8)
      && bytes[36..44] == BigEndian(f.observedAt, 8) && bytes[44..48] == BigEndian(|f.ciphertext|, 4)
      && bytes[48..] == f.ciphertext && bytes[..44] == Header(f.session, f.machinePk, f.sequence, f.observedAt)
  {
    hide BigEndian;
  }

  /** Parsing gives back the session, machine, number, time, header and ciphertext written. */
  lemma ParsesWhatIsWritten(f: Frame)
    requires IsReadable(f)
    ensures ParseAgentLiveFrame(Written(f)) == Some(f)
  {
    hide BigEndian, FromBigEndian, Written, Header, Power256;
    Layout(f);
    Powers();
    BigEndianInverts(f.machinePk, 8);
    BigEndianInverts(f.sequence, 8);
    BigEndianInverts(f.observedAt, 8);
    BigEndianInverts(|f.ciphertext|, 4);
  }

  /** Writing a parsed frame gives back the same bytes: nothing in a frame is ignored. */
  lemma WritesWhatWasParsed(bytes: seq<Byte>)
    requires ParseAgentLiveFrame(bytes).Some?
    ensures IsReadable(ParseAgentLiveFrame(bytes).value) && Written(ParseAgentLiveFrame(bytes).value) == bytes
  {
    hide BigEndian, FromBigEndian;
    FromBigEndianInverts(bytes[20..28]);
    FromBigEndianInverts(bytes[28..36]);
    FromBigEndianInverts(bytes[36..44]);
    FromBigEndianInverts(bytes[44..48]);
    Parts(bytes);
  }

  lemma Parts(bytes: seq<Byte>)
    requires |bytes| >= 48
    ensures bytes[..44] == bytes[..4] + bytes[4..20] + bytes[20..28] + bytes[28..36] + bytes[36..44]
    ensures bytes == bytes[..4] + bytes[4..20] + bytes[20..28] + bytes[28..36] + bytes[36..44] + bytes[44..48] + bytes[48..]
  {
  }

  /** The reader takes exactly the bytes of the frames it can hold. */
  lemma AcceptedIffWritten(bytes: seq<Byte>)
    ensures ParseAgentLiveFrame(bytes).Some? <==> exists f :: IsReadable(f) && Written(f) == bytes
  {
    hide ParseAgentLiveFrame, Written, IsReadable;
    if ParseAgentLiveFrame(bytes).Some? {
      WritesWhatWasParsed(bytes);
    }
    forall f | IsReadable(f) && Written(f) == bytes ensures ParseAgentLiveFrame(bytes).Some? {
      ParsesWhatIsWritten(f);
    }
  }

  // ---- the reader against the writer --------------------------------------------------------

  /** A frame of the writer is read exactly when its machine and time are safe integers. */
  lemma WritersFrameIsReadIff(f: Frame)
    requires IsWriters(f)
    ensures ParseAgentLiveFrame(Written(f)).Some? <==> f.machinePk <= MAX_SAFE && f.observedAt <= MAX_SAFE
    ensures ParseAgentLiveFrame(Written(f)).Some? ==> ParseAgentLiveFrame(Written(f)) == Some(f)
  {
    hide BigEndian, FromBigEndian, Written, Header, Power256;
    if f.machinePk <= MAX_SAFE && f.observedAt <= MAX_SAFE {
      ParsesWhatIsWritten(f);
    } else {
      Layout(f);
      Powers();
      BigEndianInverts(f.machinePk, 8);
      BigEndianInverts(f.observedAt, 8);
    }
  }

  /** The reader looks at neither the number nor the time.  Whatever it reads is a frame of the
      writer exactly when the number is from 1 to a million and the time positive. */
  lemma ReadIsWritersIff(bytes: seq<Byte>)
    requires ParseAgentLiveFrame(bytes).Some?
    ensures var f := ParseAgentLiveFrame(bytes).value;
      (exists w :: IsWriters(w) && Written(w) == bytes) <==> 0 < f.sequence <= MAX_LIVE_SEQUENCE && f.observedAt > 0
  {
    hide ParseAgentLiveFrame, Written, Header;
    var f := ParseAgentLiveFrame(bytes).value;
    WritesWhatWasParsed(bytes);
    if f.sequence <= MAX_LIVE_SEQUENCE && 0 < f.sequence && f.observedAt > 0 {
      assert IsWriters(f);
    }
    forall w | IsWriters(w) && Written(w) == bytes ensures w == f {
      WritersFrameIsReadIff(w);
    }
  }

  /** A frame of number and time 0 is read, although the writer refuses both. */
  lemma ZeroFrameIsRead() returns (f: Frame)
    ensures f.sequence == 0 && f.observedAt == 0 && ParseAgentLiveFrame(Written(f)) == Some(f)
    ensures forall w | IsWriters(w) :: Written(w) != Written(f)
  {
    hide Written, Header, ParseAgentLiveFrame;
    var session, ciphertext := seq(16, _ => 0), seq(16, _ => 0);
    f := Frame(session, 0, 0, 0, Header(session, 0, 0, 0), ciphertext);
    ParsesWhatIsWritten(f);
    ReadIsWritersIff(Written(f));
  }
}
