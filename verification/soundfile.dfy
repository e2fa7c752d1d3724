/** File sources (SDL_nmix_file.c): a mixer source whose callback copies
    bytes out of SDL_sound's decode buffer, decoding more as the buffer runs
    dry, and at the end of the file either rewinds (looping) or pads the
    rest of the callback's buffer with silence. SDL_sound itself is an
    oracle: what Sound_Decode returns on successive calls from the start of
    the file, and whether Sound_Rewind succeeds. */
module SoundFile {
  import opened AudioFormat
  import opened Voice
  import opened Engine
  import opened Seqs

  type Byte = bv8

  /** One Sound_Decode: the bytes it writes at the start of the decode
      buffer, and whether it leaves SOUND_SAMPLEFLAG_EOF or
      SOUND_SAMPLEFLAG_EAGAIN set in the sample's flags. */
  datatype Chunk = Chunk(bytes: seq<Byte>, ended: bool)

  /** The bytes a run of decodes delivers, up to and including the first
      chunk that ends it. */
  function Rest(cs: seq<Chunk>): seq<Byte>
    decreases |cs|
  {
    if cs == [] then []
    else cs[0].bytes + (if cs[0].ended then [] else Rest(cs[1..]))
  }

  /** Decoding eventually flags the end of the file. */
  predicate Ends(cs: seq<Chunk>)
    decreases |cs|
  {
    cs != [] && (cs[0].ended || Ends(cs[1..]))
  }

  /** No decode writes more than a buffer of n bytes holds. */
  predicate Fits(cs: seq<Chunk>, n: nat)
    decreases |cs|
  {
    cs == [] || (|cs[0].bytes| <= n && Fits(cs[1..], n))
  }

  /** The i-th byte a file source hands out when `ahead` is what is left of
      the file and `whole` is the file from its start: the bytes ahead,
      then, when looping, the whole file over and over, and otherwise
      silence. */
  function Produced(ahead: seq<Byte>, whole: seq<Byte>, looping: bool, i: nat): Byte
    decreases i, if ahead == [] then 1 else 0
  {
    if i < |ahead| then ahead[i]
    else if looping && whole != [] then Produced(whole, whole, true, i - |ahead|)
    else 0
  }

  /** A source that is `ahead` carries on where a source that was `before`
      is once n bytes have been handed out. */
  ghost predicate Resumes(ahead: seq<Byte>, before: seq<Byte>, whole: seq<Byte>, looping: bool, n: nat) {
    forall j: nat :: Produced(ahead, whole, looping, j) == Produced(before, whole, looping, n + j)
  }

  /** What is left ahead of a source that was `before` once n bytes have
      been handed out. At the very end of a looping file this is empty,
      where the source itself may already have started the file again. */
  function After(before: seq<Byte>, whole: seq<Byte>, looping: bool, n: nat): seq<Byte>
    decreases n, if before == [] then 1 else 0
  {
    if n <= |before| then before[n..]
    else if looping && whole != [] then After(whole, whole, true, n - |before|)
    else []
  }

  /** `ahead` is what is left of a source that was `before` after n bytes,
      or the whole file again when that is the end of a looping file. */
  predicate Matches(ahead: seq<Byte>, before: seq<Byte>, whole: seq<Byte>, looping: bool, n: nat) {
    ahead == After(before, whole, looping, n) ||
    (looping && whole != [] && After(before, whole, looping, n) == [] && ahead == whole)
  }

  /** What is left after n bytes goes on to what is left after n + c. */
  lemma {:induction false} AfterShift(before: seq<Byte>, whole: seq<Byte>, looping: bool, n: nat, c: nat)
    requires c <= |After(before, whole, looping, n)|
    ensures After(before, whole, looping, n)[c..] == After(before, whole, looping, n + c)
    decreases n, if before == [] then 1 else 0
  {
    if n <= |before| {
      assert before[n..][c..] == before[n + c..];
    } else if looping && whole != [] {
      AfterShift(whole, whole, true, n - |before|, c);
      assert n + c - |before| == n - |before| + c;
    }
  }

  /** Past the end of a looping file, the file starts over. */
  lemma {:induction false} AfterEnd(before: seq<Byte>, whole: seq<Byte>, n: nat, c: nat)
    requires whole != [] && After(before, whole, true, n) == [] && 0 < c <= |whole|
    ensures After(before, whole, true, n + c) == whole[c..]
    decreases n, if before == [] then 1 else 0
  {
    if n > |before| {
      AfterEnd(whole, whole, n - |before|, c);
      assert n + c - |before| == n - |before| + c;
    }
  }

  /** Handing out c bytes of what is ahead keeps the match. */
  lemma MatchesShift(ahead: seq<Byte>, before: seq<Byte>, whole: seq<Byte>, looping: bool, n: nat, c: nat)
    requires Matches(ahead, before, whole, looping, n) && c <= |ahead|
    ensures Matches(ahead[c..], before, whole, looping, n + c)
  {
    if ahead == After(before, whole, looping, n) {
      AfterShift(before, whole, looping, n, c);
    } else if c > 0 {
      AfterEnd(before, whole, n, c);
    } else {
      assert ahead[c..] == ahead;
    }
  }

  /** A source left with what remains after n bytes hands out what the
      original source hands out from byte n on. */
  lemma {:induction false} ProducedAfter(before: seq<Byte>, whole: seq<Byte>, looping: bool, n: nat, j: nat)
    ensures Produced(After(before, whole, looping, n), whole, looping, j) == Produced(before, whole, looping, n + j)
    decreases n, if before == [] then 1 else 0
  {
    if n > |before| && looping && whole != [] {
      ProducedAfter(whole, whole, true, n - |before|, j);
      assert n + j - |before| == n - |before| + j;
    }
  }

  /** A matching source carries on where the original would. */
  lemma MatchesResumes(ahead: seq<Byte>, before: seq<Byte>, whole: seq<Byte>, looping: bool, n: nat)
    requires Matches(ahead, before, whole, looping, n)
    ensures Resumes(ahead, before, whole, looping, n)
  {
    forall j: nat
      ensures Produced(ahead, whole, looping, j) == Produced(before, whole, looping, n + j)
    {
      ProducedAfter(before, whole, looping, n, j);
      if ahead != After(before, whole, looping, n) {
        assert Produced([], whole, true, j) == Produced(whole, whole, true, j);
      }
    }
  }

  /** Consecutive callbacks hand out consecutive stretches of the stream:
      carrying on after n bytes and then after m more is carrying on after
      n + m. */
  lemma {:induction false} ResumesChain(a2: seq<Byte>, a1: seq<Byte>, a0: seq<Byte>, whole: seq<Byte>, looping: bool, n: nat, m: nat)
    requires Resumes(a1, a0, whole, looping, n) && Resumes(a2, a1, whole, looping, m)
    ensures Resumes(a2, a0, whole, looping, n + m)
  {
    forall j: nat
      ensures Produced(a2, whole, looping, j) == Produced(a0, whole, looping, n + m + j)
    {
      assert Produced(a2, whole, looping, j) == Produced(a1, whole, looping, m + j);
      assert Produced(a1, whole, looping, m + j) == Produced(a0, whole, looping, n + (m + j));
    }
  }

  /** A looping source repeats the file once what was ahead is used up. */
  lemma LoopRepeats(ahead: seq<Byte>, whole: seq<Byte>, j: nat)
    requires whole != []
    ensures Produced(ahead, whole, true, |ahead| + |whole| + j) == Produced(ahead, whole, true, |ahead| + j)
    ensures j < |whole| ==> Produced(ahead, whole, true, |ahead| + j) == whole[j]
  {
    assert Produced(whole, whole, true, |whole| + j) == Produced(whole, whole, true, j);
  }

  /** A source that does not loop is silent once what was ahead is used up. */
  lemma EndSilent(ahead: seq<Byte>, whole: seq<Byte>, i: nat)
    requires |ahead| <= i
    ensures Produced(ahead, whole, false, i) == 0
  {
  }

  /** NMIX_FileSource: the mixer source it feeds, SDL_sound's sample (its
      decode buffer, its end flags, what it will decode), the read position
      in the decode buffer, and the loop and predecode flags. */
  class FileSource {
    /** s->source. */
    const source: Source
    /** sample->buffer, whose length is sample->buffer_size. */
    var buffer: seq<Byte>
    /** sample->flags holds SOUND_SAMPLEFLAG_EOF or SOUND_SAMPLEFLAG_EAGAIN. */
    var flagged: bool
    /** What Sound_Decode returns on its next calls. */
    var chunks: seq<Chunk>
    /** What Sound_Decode returns from the start of the file. */
    const track: seq<Chunk>
    /** Whether Sound_Rewind succeeds on this file. */
    const rewinds: bool
    /** The offset of s->buffer into sample->buffer. */
    var cursor: nat
    /** s->bytes_left: bytes still to read from the decode buffer. */
    var bytesLeft: nat
    /** s->loop_on. */
    var loopOn: bool
    /** s->predecoded: the whole file was decoded into the buffer at creation. */
    const predecoded: bool

    /** The field initialisation of NMIX_NewFileSource, before any
        predecoding: cursor at the buffer start, nothing left to read, not
        looping. */
    constructor (source: Source, predecoded: bool, track: seq<Chunk>, rewinds: bool, buffer: seq<Byte>)
      ensures this.source == source && this.predecoded == predecoded
      ensures this.track == track && this.rewinds == rewinds
      ensures this.buffer == buffer && !flagged && chunks == track
      ensures cursor == 0 && bytesLeft == 0 && !loopOn
    {
      this.source := source;
      this.buffer := buffer;
      flagged := false;
      chunks := track;
      this.track := track;
      this.rewinds := rewinds;
      cursor := 0;
      bytesLeft := 0;
      loopOn := false;
      this.predecoded := predecoded;
    }

    /** The file from its start. */
    function Whole(): seq<Byte> {
      Rest(track)
    }

    /** A predecoded buffer holds the whole file; a streamed file's decodes
        fit the buffer and reach the end of the file. */
    ghost predicate Stocked()
      reads this`buffer, this`flagged, this`chunks
    {
      (predecoded ==> buffer == Whole()) &&
      (!predecoded ==> Ends(track) && Fits(track, |buffer|) && Fits(chunks, |buffer|) && (!flagged ==> Ends(chunks)))
    }

    /** The read position lies in the decode buffer, which is stocked. */
    ghost predicate Valid()
      reads this`buffer, this`cursor, this`bytesLeft, this`flagged, this`chunks
    {
      cursor + bytesLeft <= |buffer| && Stocked()
    }

    /** What decoding will still deliver: nothing for a predecoded file or
        one whose decoder has flagged its end. */
    ghost function Pending(): seq<Byte>
      reads this`flagged, this`chunks
    {
      if predecoded || flagged then [] else Rest(chunks)
    }

    /** What is left of the file: the unread bytes of the decode buffer,
        then what decoding will still deliver. */
    ghost function Ahead(): seq<Byte>
      reads this`buffer, this`cursor, this`bytesLeft, this`flagged, this`chunks
      requires cursor + bytesLeft <= |buffer|
    {
      buffer[cursor..cursor + bytesLeft] + Pending()
    }

    /** The callback's loop ends: a looping source has a non-empty file and
        can be rewound. */
    predicate Loopable()
      reads this`loopOn
    {
      loopOn ==> Whole() != [] && (predecoded || rewinds)
    }

    /** Looping can go on: the source loops, its file is not empty, and it
        can be played again from the start. */
    predicate Loops()
      reads this`loopOn
    {
      loopOn && Whole() != [] && (predecoded || rewinds)
    }

    /** Sound_Decode: the next chunk overwrites the start of the buffer, sets
        the end flags, and its length is returned. */
    method DecodeNext() returns (n: nat)
      requires chunks != [] && |chunks[0].bytes| <= |buffer|
      modifies this`buffer, this`flagged, this`chunks
      ensures n == |old(chunks[0].bytes)| && |buffer| == |old(buffer)|
      ensures buffer[..n] == old(chunks[0].bytes) && buffer[n..] == old(buffer[n..])
      ensures flagged == old(chunks[0].ended) && chunks == old(chunks[1..])
    {
      var c := chunks[0];
      n := |c.bytes|;
      buffer := c.bytes + buffer[n..];
      flagged := c.ended;
      chunks := chunks[1..];
    }

    /** Sound_DecodeAll: the rest of the file is decoded into one buffer,
        resized to hold it, whose size is returned. */
    method DecodeAll() returns (n: nat)
      modifies this`buffer, this`flagged, this`chunks
      ensures buffer == old(Rest(chunks)) && n == |buffer|
      ensures flagged && chunks == []
    {
      buffer := Rest(chunks);
      n := |buffer|;
      flagged := true;
      chunks := [];
    }
  }

  /** SDL_memcpy into the callback's buffer. */
  method Copy(out: array<Byte>, at: nat, src: seq<Byte>)
    requires at + |src| <= out.Length
    modifies out
    ensures out[at..at + |src|] == src
    ensures forall k :: 0 <= k < out.Length && !(at <= k < at + |src|) ==> out[k] == old(out[k])
  {
    forall k | 0 <= k < |src| {
      out[at + k] := src[k];
    }
  }

  /** SDL_memset to silence from `at` to the end of the callback's buffer. */
  method ZeroFill(out: array<Byte>, at: nat)
    requires at <= out.Length
    modifies out
    ensures forall k :: at <= k < out.Length ==> out[k] == 0
    ensures forall k :: 0 <= k < at ==> out[k] == old(out[k])
  {
    forall k | at <= k < out.Length {
      out[k] := 0;
    }
  }

  /** A copy step hands out the next bytes of the stream and leaves the
      source carrying on after them. */
  lemma Advanced(out: array<Byte>, ahead: seq<Byte>, before: seq<Byte>, whole: seq<Byte>, looping: bool, n: nat, c: nat)
    requires c <= |ahead| && n + c <= out.Length && out[n..n + c] == ahead[..c]
    requires Matches(ahead, before, whole, looping, n)
    requires forall i :: 0 <= i < n ==> out[i] == Produced(before, whole, looping, i)
    requires !looping ==> n <= |before|
    ensures forall i :: 0 <= i < n + c ==> out[i] == Produced(before, whole, looping, i)
    ensures Matches(ahead[c..], before, whole, looping, n + c)
    ensures !looping ==> n + c <= |before|
  {
    forall i | n <= i < n + c
      ensures out[i] == Produced(before, whole, looping, i)
    {
      assert out[i] == out[n..n + c][i - n] == ahead[i - n];
      MatchesResumes(ahead, before, whole, looping, n);
      assert Produced(ahead, whole, looping, i - n) == Produced(before, whole, looping, n + (i - n));
    }
    MatchesShift(ahead, before, whole, looping, n, c);
  }

  /** sdlsound_callback: fills the whole callback buffer with the next
      bytes of the source, byte for byte what Produced says; afterwards the
      source carries on exactly where the buffer stopped, unless a source
      that does not loop has reached its end, which then sets eof and leaves
      the decode buffer's start and full size as the read window. The mixer
      calls it only while the source's eof is clear. */
  method SoundCallback(s: FileSource, out: array<Byte>)
    requires s.Valid() && !s.source.eof && s.Loopable()
    modifies out, s`buffer, s`flagged, s`chunks, s`cursor, s`bytesLeft, s.source`eof
    ensures s.Valid() && s.loopOn == old(s.loopOn)
    ensures forall i :: 0 <= i < out.Length ==> out[i] == Produced(old(s.Ahead()), s.Whole(), s.loopOn, i)
    ensures !s.source.eof ==> Resumes(s.Ahead(), old(s.Ahead()), s.Whole(), s.loopOn, out.Length)
    ensures s.loopOn ==> !s.source.eof
    ensures !s.loopOn && |old(s.Ahead())| < out.Length ==> s.source.eof
    ensures s.source.eof ==> !s.loopOn && |old(s.Ahead())| <= out.Length
    ensures s.source.eof ==> s.cursor == 0 && s.bytesLeft == |s.buffer|
    ensures out.Length > 0 && s.predecoded && !s.loopOn ==> (s.source.eof <==> |old(s.Ahead())| <= out.Length)
  {
    ghost var a0, whole, looping := s.Ahead(), s.Whole(), s.loopOn;
    var bytesWritten := 0;
    while bytesWritten < out.Length
      invariant bytesWritten <= out.Length
      invariant s.Valid() && !s.source.eof && s.loopOn == looping
      invariant forall i :: 0 <= i < bytesWritten ==> out[i] == Produced(a0, whole, looping, i)
      invariant Matches(s.Ahead(), a0, whole, looping, bytesWritten)
      invariant !looping ==> bytesWritten <= |a0|
      invariant s.predecoded && !looping && bytesWritten > 0 ==> s.bytesLeft > 0
      decreases out.Length - bytesWritten, (if s.Ahead() == [] then 1 else 0), |s.chunks|
    {
      var done;
      bytesWritten, done := FillStep(s, out, bytesWritten, a0, whole, looping);
      if done {
        break;
      }
    }
    if !s.source.eof {
      MatchesResumes(s.Ahead(), a0, whole, looping, out.Length);
    }
  }

  /** One pass of sdlsound_callback's loop: a copy step (CopyOut), then, if the
      decode buffer has run dry, a refresh (RunDry); a source that does not
      loop and is at its end has the rest of the callback's buffer silenced
      and ends the loop. Every byte written so far is the stream's; unless
      the loop ends, the source matches the stream after them, having
      written more bytes, gone from nothing ahead to something, or used up a
      decode; and a predecoded source that does not loop ends the loop
      exactly when its buffer runs dry. */
  method FillStep(s: FileSource, out: array<Byte>, bytesWritten: nat, ghost a0: seq<Byte>, ghost whole: seq<Byte>, ghost looping: bool)
      returns (written: nat, done: bool)
    requires bytesWritten < out.Length && whole == s.Whole()
    requires s.Valid() && !s.source.eof && s.loopOn == looping && s.Loopable()
    requires forall i :: 0 <= i < bytesWritten ==> out[i] == Produced(a0, whole, looping, i)
    requires Matches(s.Ahead(), a0, whole, looping, bytesWritten)
    requires !looping ==> bytesWritten <= |a0|
    modifies out, s`buffer, s`flagged, s`chunks, s`cursor, s`bytesLeft, s.source`eof
    ensures bytesWritten <= written <= out.Length && s.Valid()
    ensures done <==> s.source.eof
    ensures forall i :: 0 <= i < written ==> out[i] == Produced(a0, whole, looping, i)
    ensures !looping ==> written <= |a0|
    ensures !done ==> Matches(s.Ahead(), a0, whole, looping, written)
    ensures !done ==> written > bytesWritten || (old(s.Ahead()) == [] && s.Ahead() != []) ||
                      (s.Ahead() == old(s.Ahead()) && |s.chunks| < old(|s.chunks|))
    ensures !done && s.predecoded && !looping ==> s.bytesLeft > 0
    ensures done ==> !looping && written == |a0| && s.cursor == 0 && s.bytesLeft == |s.buffer|
    ensures done ==> forall i :: 0 <= i < out.Length ==> out[i] == Produced(a0, whole, looping, i)
  {
    written := CopyOut(s, out, bytesWritten, a0, whole, looping);
    done := false;
    if s.bytesLeft == 0 {
      done := DryOut(s, out, written, a0, whole, looping);
    }
  }

  /** The branch of sdlsound_callback's loop where the decode buffer has
      run dry (RunDry); a source then at its end, which does not loop, has
      the rest of the callback's buffer silenced, all of it now the
      stream's, and ends the loop. Otherwise what is ahead is unchanged with
      fewer decodes to go, or a looping source that had used up its file is
      back at the start of it. */
  method DryOut(s: FileSource, out: array<Byte>, written: nat, ghost a0: seq<Byte>, ghost whole: seq<Byte>, ghost looping: bool)
      returns (done: bool)
    requires written <= out.Length && whole == s.Whole()
    requires s.Valid() && s.bytesLeft == 0 && !s.source.eof && s.loopOn == looping && s.Loopable()
    requires forall i :: 0 <= i < written ==> out[i] == Produced(a0, whole, looping, i)
    requires Matches(s.Ahead(), a0, whole, looping, written)
    requires !looping ==> written <= |a0|
    modifies out, s`buffer, s`flagged, s`chunks, s`cursor, s`bytesLeft, s.source`eof
    ensures s.Valid() && (done <==> s.source.eof)
    ensures !done ==> forall i :: 0 <= i < out.Length ==> out[i] == old(out[i])
    ensures !done ==> (s.Ahead() == old(s.Ahead()) && |s.chunks| < old(|s.chunks|)) ||
                      (looping && old(s.Ahead()) == [] && s.Ahead() == whole)
    ensures s.predecoded && !looping ==> done
    ensures done ==> !looping && written == |a0| && s.cursor == 0 && s.bytesLeft == |s.buffer|
    ensures done ==> forall i :: 0 <= i < out.Length ==> out[i] == Produced(a0, whole, looping, i)
  {
    RunDry(s);
    done := false;
    if s.source.eof {
      ZeroFill(out, written);
      done := true;
    }
  }

  /** The copy step of sdlsound_callback's loop seen on the stream: the
      bytes it copies are the stream's next ones, so every byte written so
      far is the stream's and the source matches the stream after them;
      what is ahead loses exactly the bytes copied. */
  method CopyOut(s: FileSource, out: array<Byte>, bytesWritten: nat, ghost a0: seq<Byte>, ghost whole: seq<Byte>, ghost looping: bool)
      returns (written: nat)
    requires bytesWritten < out.Length && s.Valid()
    requires forall i :: 0 <= i < bytesWritten ==> out[i] == Produced(a0, whole, looping, i)
    requires Matches(s.Ahead(), a0, whole, looping, bytesWritten)
    requires !looping ==> bytesWritten <= |a0|
    modifies out, s`cursor, s`bytesLeft
    ensures s.Valid() && bytesWritten <= written <= out.Length
    ensures s.bytesLeft == old(s.bytesLeft) - (written - bytesWritten)
    ensures written < out.Length ==> s.bytesLeft == 0
    ensures s.Ahead() == old(s.Ahead())[written - bytesWritten..]
    ensures forall i :: 0 <= i < written ==> out[i] == Produced(a0, whole, looping, i)
    ensures Matches(s.Ahead(), a0, whole, looping, written)
    ensures !looping ==> written <= |a0|
  {
    ghost var a := s.Ahead();
    var copySize := CopyStep(s, out, bytesWritten);
    Advanced(out, a, a0, whole, looping, bytesWritten, copySize);
    written := bytesWritten + copySize;
  }

  /** The copy step of sdlsound_callback's loop: the copy size is what is
      left of the callback's buffer, capped by what the decode buffer still
      holds; that many bytes are copied out and the read position moves
      past them. The bytes copied are the first of what was ahead, and what
      is ahead loses them. */
  method CopyStep(s: FileSource, out: array<Byte>, bytesWritten: nat) returns (copySize: nat)
    requires bytesWritten < out.Length && s.Valid()
    modifies out, s`cursor, s`bytesLeft
    ensures s.Valid()
    ensures copySize == if out.Length - bytesWritten > old(s.bytesLeft) then old(s.bytesLeft) else out.Length - bytesWritten
    ensures s.bytesLeft == old(s.bytesLeft) - copySize
    ensures copySize <= |old(s.Ahead())| && s.Ahead() == old(s.Ahead())[copySize..]
    ensures bytesWritten + copySize <= out.Length && out[bytesWritten..bytesWritten + copySize] == old(s.Ahead())[..copySize]
    ensures forall k :: 0 <= k < bytesWritten ==> out[k] == old(out[k])
  {
    copySize := out.Length - bytesWritten;
    if copySize > s.bytesLeft {
      copySize := s.bytesLeft;
    }
    var chunk := s.buffer[s.cursor..s.cursor + copySize];
    Copy(out, bytesWritten, chunk);
    Advance(s, copySize);
  }

  /** The read position of sdlsound_callback moves c bytes on: the
      source stays valid and what is ahead loses the c bytes the read
      window started with. */
  method Advance(s: FileSource, c: nat)
    requires s.Valid() && c <= s.bytesLeft
    modifies s`cursor, s`bytesLeft
    ensures s.Valid() && s.cursor == old(s.cursor) + c && s.bytesLeft == old(s.bytesLeft) - c
    ensures c <= |old(s.Ahead())| && s.Ahead() == old(s.Ahead())[c..]
    ensures old(s.Ahead())[..c] == s.buffer[old(s.cursor)..s.cursor]
  {
    ghost var later := s.Pending();
    WindowCut(s.buffer, s.cursor, s.bytesLeft, later, c);
    s.bytesLeft := s.bytesLeft - c;
    s.cursor := s.cursor + c;
    assert s.Pending() == later;
  }

  /** Reading c bytes of the decode buffer's window moves the window on. */
  lemma WindowCut(buffer: seq<Byte>, cursor: nat, left: nat, later: seq<Byte>, c: nat)
    requires cursor + left <= |buffer| && c <= left
    ensures (buffer[cursor..cursor + left] + later)[..c] == buffer[cursor..cursor + c]
    ensures (buffer[cursor..cursor + left] + later)[c..] == buffer[cursor + c..cursor + c + (left - c)] + later
  {
    CutFront(buffer[cursor..cursor + left], later, c);
    assert buffer[cursor..cursor + left][c..] == buffer[cursor + c..cursor + c + (left - c)];
  }

  /** The decode buffer of sdlsound_callback has run dry: the read window
      goes back to the whole buffer; a predecoded source, or a streamed one
      whose decoder flagged the end, is then at its end and sets eof, and
      any other streamed source decodes its next chunk into the buffer,
      which leaves what is ahead as it was. */
  method Refresh(s: FileSource)
    requires s.Valid() && s.bytesLeft == 0 && !s.source.eof
    modifies s`buffer, s`flagged, s`chunks, s`cursor, s`bytesLeft, s.source`eof
    ensures s.Valid()
    ensures s.source.eof == (s.predecoded || old(s.flagged))
    ensures s.source.eof ==> old(s.Ahead()) == [] && s.cursor == 0 && s.bytesLeft == |s.buffer|
    ensures s.source.eof ==> s.buffer == old(s.buffer) && s.flagged == old(s.flagged) && s.chunks == old(s.chunks)
    ensures !s.source.eof ==> s.Ahead() == old(s.Ahead()) && |s.chunks| < old(|s.chunks|)
  {
    s.bytesLeft := |s.buffer|;
    s.cursor := 0;
    if s.predecoded {
      s.source.eof := true;
    } else {
      if s.flagged {
        s.source.eof := true;
      } else {
        s.bytesLeft := s.DecodeNext();
      }
    }
  }

  /** The branch of sdlsound_callback where the decode buffer has run dry:
      the buffer is refreshed, and a looping source found at its end is
      rewound. Afterwards a source still at its end does not loop and had
      nothing ahead; otherwise what is ahead is unchanged with fewer decodes
      to go, or a looping source that had used up its file is back at the
      start of it. */
  method RunDry(s: FileSource)
    requires s.Valid() && s.bytesLeft == 0 && !s.source.eof && s.Loopable()
    modifies s`buffer, s`flagged, s`chunks, s`cursor, s`bytesLeft, s.source`eof
    ensures s.Valid()
    ensures s.source.eof ==> !s.loopOn && old(s.Ahead()) == [] && s.cursor == 0 && s.bytesLeft == |s.buffer|
    ensures !s.loopOn ==> s.source.eof == (s.predecoded || old(s.flagged))
    ensures !s.source.eof ==>
      (s.Ahead() == old(s.Ahead()) && |s.chunks| < old(|s.chunks|)) ||
      (s.loopOn && old(s.Ahead()) == [] && s.Ahead() == s.Whole())
  {
    Refresh(s);
    if s.source.eof {
      if s.loopOn {
        var status := Rewind(s);
      }
    }
  }

  /** NMIX_Rewind: -1 for no source. Otherwise eof is cleared and the read
      position goes back to the buffer start; a predecoded source then has
      the whole buffer to read, and a streamed one asks SDL_sound to start
      the file again, returning -1 if it cannot. On success the source is
      back at the start of the file. */
  method Rewind(s: FileSource?) returns (status: int)
    requires s != null ==> s.Valid()
    modifies (if s == null then {} else {s})`cursor, (if s == null then {} else {s})`bytesLeft
    modifies (if s == null then {} else {s})`flagged, (if s == null then {} else {s})`chunks
    modifies (if s == null then {} else {s.source})`eof
    ensures s == null ==> status == -1
    ensures s != null ==> s.Valid() && !s.source.eof && s.cursor == 0
    ensures s != null ==> status == (if s.predecoded || s.rewinds then 0 else -1)
    ensures status == 0 ==> s != null && s.Ahead() == s.Whole()
    ensures s != null && status == -1 ==> s.bytesLeft == 0 && s.flagged == old(s.flagged) && s.chunks == old(s.chunks)
    ensures s != null && s.predecoded ==> s.bytesLeft == |s.buffer| && s.flagged == old(s.flagged) && s.chunks == old(s.chunks)
  {
    if s == null {
      return -1;
    }
    s.source.eof := false;
    s.bytesLeft := 0;
    s.cursor := 0;
    if s.predecoded {
      s.bytesLeft := |s.buffer|;
    } else {
      if !s.rewinds {
        return -1;
      }
      s.chunks := s.track;
      s.flagged := false;
    }
    return 0;
  }

  /** NMIX_GetLoop: whether the source loops; false for no source. */
  function GetLoop(s: FileSource?): (b: bool)
    reads s
    ensures b <==> s != null && s.loopOn
  {
    if s == null then false else s.loopOn
  }

  /** NMIX_SetLoop: what GetLoop then reports; no effect on no source. */
  method SetLoop(s: FileSource?, loopOn: bool)
    modifies (if s == null then {} else {s})`loopOn
    ensures s != null ==> GetLoop(s) == loopOn
  {
    if s == null {
      return;
    }
    s.loopOn := loopOn;
  }

  /** The dry branch of sdlsound_callback as written, for a looping source
      whose file cannot be played again: a streamed file whose decoder has
      flagged the end and which cannot be rewound, or an empty predecoded
      file. Refresh sets eof and Rewind clears it again with nothing to
      read, and everything else is as it was, so the next pass copies no
      bytes and comes back here: the callback never returns. */
  method DryCycle(s: FileSource) returns (status: int)
    requires s.Valid() && s.bytesLeft == 0 && !s.source.eof && s.loopOn
    requires (!s.predecoded && s.flagged && !s.rewinds) || (s.predecoded && s.Whole() == [])
    modifies s`buffer, s`flagged, s`chunks, s`cursor, s`bytesLeft, s.source`eof
    ensures s.Valid() && s.bytesLeft == 0 && !s.source.eof && s.loopOn
    ensures s.buffer == old(s.buffer) && s.flagged == old(s.flagged) && s.chunks == old(s.chunks)
    ensures s.Ahead() == old(s.Ahead()) == []
  {
    Refresh(s);
    status := Rewind(s);
  }

  /** sdlsound_callback with its end-of-file branch guarded: a looping
      source whose rewind fails, or which reaches the end again without a
      byte copied since it was rewound, is treated as a source at its end.
      Without any condition on looping, the callback then fills the whole
      buffer with what Produced says for a source that loops exactly when
      looping can go on (Loops), and it agrees with SoundCallback wherever
      that one returns. */
  method SoundCallbackGuarded(s: FileSource, out: array<Byte>)
    requires s.Valid() && !s.source.eof
    modifies out, s`buffer, s`flagged, s`chunks, s`cursor, s`bytesLeft, s.source`eof
    ensures s.Valid() && s.loopOn == old(s.loopOn)
    ensures forall i :: 0 <= i < out.Length ==> out[i] == Produced(old(s.Ahead()), s.Whole(), s.Loops(), i)
    ensures !s.source.eof ==> Resumes(s.Ahead(), old(s.Ahead()), s.Whole(), s.Loops(), out.Length)
    ensures s.Loops() ==> !s.source.eof
    ensures !s.Loops() && |old(s.Ahead())| < out.Length ==> s.source.eof
    ensures s.source.eof ==> !s.Loops() && |old(s.Ahead())| <= out.Length
  {
    ghost var a0, whole, looping := s.Ahead(), s.Whole(), s.Loops();
    var bytesWritten := 0;
    var rewound := false;
    while bytesWritten < out.Length
      invariant bytesWritten <= out.Length
      invariant s.Valid() && !s.source.eof && looping == s.Loops()
      invariant forall i :: 0 <= i < bytesWritten ==> out[i] == Produced(a0, whole, looping, i)
      invariant Matches(s.Ahead(), a0, whole, looping, bytesWritten)
      invariant !looping ==> bytesWritten <= |a0|
      invariant rewound ==> s.loopOn && s.Ahead() == whole
      decreases out.Length - bytesWritten, (if s.Ahead() == [] then 1 else 0), (if rewound then 0 else 1), |s.chunks|
    {
      var done;
      bytesWritten, rewound, done := GuardedStep(s, out, bytesWritten, rewound, a0, whole, looping);
      if done {
        break;
      }
    }
    if !s.source.eof {
      MatchesResumes(s.Ahead(), a0, whole, looping, out.Length);
    }
  }

  /** One pass of the guarded loop: a copy step, which clears `rewound`
      once it copies a byte, then the guarded dry branch if the decode
      buffer has run dry. Every byte written is the stream's; unless the
      loop ends, the source matches the stream after them, having written
      more bytes, gone from nothing ahead to something, been rewound to an
      empty file, or used up a decode. */
  method GuardedStep(s: FileSource, out: array<Byte>, bytesWritten: nat, rewound: bool,
                     ghost a0: seq<Byte>, ghost whole: seq<Byte>, ghost looping: bool)
      returns (written: nat, rewound': bool, done: bool)
    requires bytesWritten < out.Length && whole == s.Whole() && looping == s.Loops()
    requires s.Valid() && !s.source.eof
    requires forall i :: 0 <= i < bytesWritten ==> out[i] == Produced(a0, whole, looping, i)
    requires Matches(s.Ahead(), a0, whole, looping, bytesWritten)
    requires !looping ==> bytesWritten <= |a0|
    requires rewound ==> s.loopOn && s.Ahead() == whole
    modifies out, s`buffer, s`flagged, s`chunks, s`cursor, s`bytesLeft, s.source`eof
    ensures bytesWritten <= written <= out.Length && s.Valid()
    ensures done <==> s.source.eof
    ensures forall i :: 0 <= i < written ==> out[i] == Produced(a0, whole, looping, i)
    ensures !looping ==> written <= |a0|
    ensures !done ==> Matches(s.Ahead(), a0, whole, looping, written)
    ensures !done && rewound' ==> s.loopOn && s.Ahead() == whole
    ensures !done ==> written > bytesWritten || (old(s.Ahead()) == [] && s.Ahead() != []) ||
                      (s.Ahead() == old(s.Ahead()) && rewound' && !rewound) ||
                      (s.Ahead() == old(s.Ahead()) && rewound' == rewound && |s.chunks| < old(|s.chunks|))
    ensures done ==> !looping && written == |a0|
    ensures done ==> forall i :: 0 <= i < out.Length ==> out[i] == Produced(a0, whole, looping, i)
  {
    written := CopyOut(s, out, bytesWritten, a0, whole, looping);
    rewound' := rewound && written == bytesWritten;
    done := false;
    if s.bytesLeft == 0 {
      rewound', done := GuardedDry(s, out, written, rewound', a0, whole, looping);
    }
  }

  /** The guarded dry branch: the buffer is refreshed; at the end of the
      file a looping source not rewound since its last byte is rewound, and
      a source still at its end (not looping, the rewind failed, or nothing
      came back from the last rewind) has the rest of the callback's buffer
      silenced and ends the loop. Such a source does not loop on, and every
      byte written is the stream's. Otherwise what is ahead is unchanged
      with fewer decodes to go, or the source is back at the start of its
      file, rewound. */
  method GuardedDry(s: FileSource, out: array<Byte>, written: nat, rewound: bool,
                    ghost a0: seq<Byte>, ghost whole: seq<Byte>, ghost looping: bool)
      returns (rewound': bool, done: bool)
    requires written <= out.Length && whole == s.Whole() && looping == s.Loops()
    requires s.Valid() && s.bytesLeft == 0 && !s.source.eof
    requires forall i :: 0 <= i < written ==> out[i] == Produced(a0, whole, looping, i)
    requires Matches(s.Ahead(), a0, whole, looping, written)
    requires !looping ==> written <= |a0|
    requires rewound ==> s.loopOn && s.Ahead() == whole
    modifies out, s`buffer, s`flagged, s`chunks, s`cursor, s`bytesLeft, s.source`eof
    ensures s.Valid() && (done <==> s.source.eof)
    ensures !done ==> forall i :: 0 <= i < out.Length ==> out[i] == old(out[i])
    ensures !done && rewound' ==> s.loopOn && s.Ahead() == whole
    ensures !done ==> Matches(s.Ahead(), a0, whole, looping, written)
    ensures !done ==> (s.Ahead() == old(s.Ahead()) && rewound' == rewound && |s.chunks| < old(|s.chunks|)) ||
                      (old(s.Ahead()) == [] && s.Ahead() == whole && rewound' && !rewound)
    ensures done ==> !looping && written == |a0|
    ensures done ==> forall i :: 0 <= i < out.Length ==> out[i] == Produced(a0, whole, looping, i)
  {
    Refresh(s);
    rewound' := rewound;
    done := false;
    if s.source.eof {
      rewound' := Replay(s, rewound);
      if s.source.eof {
        ZeroFill(out, written);
        done := true;
      } else {
        assert looping ==> After(a0, whole, looping, written) == [];
      }
    }
  }

  /** The guarded end of the file: a looping source not rewound since its
      last byte is rewound, and a failed rewind sets eof again. The source
      then stays at its end exactly when it does not loop, was rewound
      already, or cannot be rewound; otherwise it is back at the start of
      its file, rewound. */
  method Replay(s: FileSource, rewound: bool) returns (rewound': bool)
    requires s.Valid() && s.source.eof
    modifies s`flagged, s`chunks, s`cursor, s`bytesLeft, s.source`eof
    ensures s.Valid()
    ensures s.source.eof <==> !s.loopOn || rewound || !(s.predecoded || s.rewinds)
    ensures s.source.eof ==> rewound' == rewound
    ensures !s.source.eof ==> rewound' && s.Ahead() == s.Whole()
  {
    rewound' := rewound;
    if s.loopOn && !rewound {
      var status := Rewind(s);
      if status == 0 {
        rewound' := true;
      } else {
        s.source.eof := true;
      }
    }
  }

  /** What SDL_sound makes of a file: nothing it can decode, or the actual
      format of its audio, what successive decodes deliver and whether it
      can be rewound. */
  datatype Probe = Unsupported | Opened(format: Format, channels: nat, rate: int, chunks: seq<Chunk>, rewinds: bool)

  /** NMIX_NewFileSource: no source without an open device, when SDL_sound
      cannot open the file, or when NMIX_NewSource fails (`streamOk`).
      Otherwise a new mixer source in the file's format, not looping, at the
      start of the file whether predecoded or streamed; a predecoded one
      holds the whole file in its buffer. `scratch` is the decode buffer
      SDL_sound allocates, one device period long. */
  method NewFileSource(m: Mixer, probe: Probe, predecode: bool, scratch: seq<Byte>, refills: seq<Refill>, streamOk: bool)
      returns (f: FileSource?)
    requires m.Valid() && |scratch| == m.size
    requires probe.Opened? ==> probe.channels < 256 && Ends(probe.chunks)
    requires probe.Opened? && !predecode ==> Fits(probe.chunks, |scratch|)
    modifies m`Links
    ensures m.Valid() && m.Playing() == old(m.Playing())
    ensures f == null <==> !m.open || probe.Unsupported? || !streamOk
    ensures f == null ==> m.Sources() == old(m.Sources())
    ensures f != null ==> fresh(f) && fresh(f.source) && m.Sources() == old(m.Sources()) + {f.source}
    ensures f != null ==> f.Valid() && f.Ahead() == f.Whole() && f.Whole() == Rest(probe.chunks)
    ensures f != null ==> !f.loopOn && f.predecoded == predecode && f.cursor == 0 && !f.source.eof
    ensures f != null ==> f.bytesLeft == (if predecode then |f.Whole()| else 0)
    ensures f != null ==> !m.IsPlaying(f.source) && f.source.refills == refills
    ensures f != null ==> f.source.format == probe.format && f.source.channels == probe.channels && f.source.rate == probe.rate
  {
    if !m.open {
      return null;
    }
    if probe.Unsupported? {
      return null;
    }
    var source := m.NewSource(probe.format, probe.channels, probe.rate, refills, streamOk);
    if source == null {
      return null;
    }
    f := Start(source, predecode, probe.chunks, probe.rewinds, scratch);
  }

  /** The rest of NMIX_NewFileSource once its mixer source exists: the
      fields are initialised and a predecoded file is decoded whole, so the
      source is valid, not looping, and at the start of the file. */
  method Start(source: Source, predecode: bool, chunks: seq<Chunk>, rewinds: bool, scratch: seq<Byte>)
      returns (f: FileSource)
    requires Ends(chunks) && (!predecode ==> Fits(chunks, |scratch|))
    ensures fresh(f) && f.source == source && f.track == chunks
    ensures f.Valid() && f.Ahead() == f.Whole() && f.Whole() == Rest(chunks)
    ensures !f.loopOn && f.predecoded == predecode && f.cursor == 0
    ensures f.bytesLeft == (if predecode then |f.Whole()| else 0)
  {
    f := new FileSource(source, predecode, chunks, rewinds, scratch);
    if predecode {
      f.bytesLeft := f.DecodeAll();
      f.cursor := 0;
    }
  }

  /** NMIX_FreeFileSource: nothing for no source; otherwise its mixer
      source is freed, and paused first if it was playing. */
  method FreeFileSource(m: Mixer, s: FileSource?)
    requires m.Valid() && (s != null ==> s.source in m.Sources())
    modifies m`playing, m`Links, m.Links.live`prev, m.Links.live`next
    ensures m.Valid()
    ensures s == null ==> m.Playing() == old(m.Playing()) && m.Sources() == old(m.Sources())
    ensures s != null ==> m.Playing() == Without<Source>(old(m.Playing()), s.source)
    ensures s != null ==> m.Sources() == old(m.Sources()) - {s.source}
  {
    if s == null {
      return;
    }
    m.FreeSource(s.source);
  }
}
