/** The v1 receiver, status sender and client as the objects they are, each method tied to the
    step functions of the upload system. */
module UploadNodes {
  import opened Varints
  import opened Ranges
  import opened BitMaps
  import opened StatusUpdates
  import opened Geometry
  import opened Congestion
  import opened Upload
  import opened UploadHistory

  class Receiver {
    const info: ChunkInfo
    const bitmap: BitMap
    const congestion: CongestionInfo
    var file: seq<byte>
    var phase: Phase
    var bitmapFile: bool
    var notified: nat
    var due: nat  // updates in the channel to the status sender

    ghost predicate Valid()
      reads this, bitmap, bitmap.buf, congestion
    {
      && bitmap.Valid()
      && bitmap.numBits == info.numChunks
      && |congestion.ipts| <= 10
      && (phase.Writing? ==> phase.index < info.numChunks && phase.done <= |phase.payload|)
    }

    ghost function View(): Server
      reads this, bitmap, bitmap.buf, congestion
      requires Valid()
    {
      Server(bitmap.Bits(), file, phase, bitmapFile, notified, due, congestion.View())
    }

    /** A fresh upload: an all-zero bitmap file of whole bytes, the file cut or extended with zeroes to
        its length, and a first status update due. */
    constructor UploadRequest(length: nat, before: seq<byte>)
      requires length < U64_LIMIT
      ensures Valid() && fresh(bitmap) && fresh(bitmap.buf) && fresh(congestion)
      ensures IsInfoFor(info, length)
      ensures |file| == length
      ensures forall p :: 0 <= p < length ==> file[p] == if p < |before| then before[p] else 0
      ensures phase == Waiting && bitmapFile && notified == 0 && due == 1
      ensures forall i :: 0 <= i < info.numChunks ==> !bitmap.Bits()[i]
      ensures congestion.last.None? && congestion.ipts == []
      ensures forall src, path :: |src| == length ==> View() == Init(Config(info, src, file, path)).server
    {
      var idle := new CongestionInfo();
      var chunkInfo := IndexFieldSize(length);
      var buf := new bv8[(chunkInfo.numChunks + 7) / 8](_ => 0);
      var zeroed := new BitMap.WithLength(buf, chunkInfo.numChunks);
      info := chunkInfo;
      bitmap := zeroed;
      congestion := idle;
      file := SetLength(before, length);
      phase, bitmapFile, notified, due := Waiting, true, 0, 1;
      new;
      forall i | 0 <= i < info.numChunks ensures !bitmap.Bits()[i] {
        MaskTable(i % 8);
      }
      assert bitmap.Bits() == seq(info.numChunks, _ => false);
    }

    /** A datagram of any content at time `now`. `false` is a panic; otherwise the bitmap's invariant
        holds and the state is the one the step system gives. The FIN test comes before the bitmap,
        so the index one past the last bit never reaches it. */
    method OnDatagram(packet: seq<byte>, now: nat) returns (ok: bool)
      requires Valid() && !phase.Writing?
      requires congestion.last.Some? ==> congestion.last.value <= now  // the clock is monotonic
      modifies this, congestion
      ensures bitmap.Valid() && bitmap.Bits() == old(bitmap.Bits())
      ensures file == old(file) && notified == old(notified) && due == old(due)
      ensures old(phase).Shutdown? ==> ok && phase == Shutdown && bitmapFile == old(bitmapFile)
      ensures old(phase).Shutdown? ==> congestion.View() == old(congestion.View())
      ensures old(phase).Waiting? && |packet| < info.indexFieldSize ==> !ok
      ensures old(phase).Waiting? && |packet| >= info.indexFieldSize ==>
                var index := FromLittleEndian(packet[..info.indexFieldSize]);
                if index == info.numChunks then
                  && ok && phase == Shutdown && congestion.View() == old(congestion.View())
                  && bitmapFile == (old(bitmapFile) && exists i :: 0 <= i < |bitmap.Bits()| && !bitmap.Bits()[i])
                else
                  && (index > info.numChunks ==> !ok) && bitmapFile == old(bitmapFile)
                  && congestion.last == Some(now)
                  && (ok && old(congestion.last).Some? ==>
                        && |congestion.ipts| > 0
                        && congestion.ipts[|congestion.ipts| - 1] == now - old(congestion.last).value)
                  && (ok ==> phase == if bitmap.Bits()[index] then Waiting
                                      else Writing(index, packet[info.indexFieldSize..], 0))
      ensures var gap := if old(congestion.last).Some? then now - old(congestion.last).value else 0;
              && (ok <==> Receive(info, old(View()), packet, gap).Some?)
              && (ok ==> Valid() && View() == Receive(info, old(View()), packet, gap).value)
    {
      if phase.Shutdown? {
        return true;
      }
      var chunk := ChunkDecode(packet, info.indexFieldSize);
      if chunk.None? {
        return false;
      }
      var (index, data) := chunk.value;
      if index == info.numChunks {
        var all := bitmap.All();
        if all && bitmapFile {
          bitmapFile := false;
        }
        phase := Shutdown;
        return true;
      }
      var counted := congestion.IptPacket(now);
      if !counted {
        return false;
      }
      var got := bitmap.Get(index);
      if got.None? {
        return false;
      }
      if !got.value {
        phase := Writing(index, data, 0);
      }
      return true;
    }

    /** The pending `write_all` puts `k` more bytes into the file, behind those it has put there. */
    method OnWriteProgress(k: nat)
      requires Valid() && phase.Writing? && phase.done + k <= |phase.payload|
      modifies this`file, this`phase
      ensures Valid() && View() == WriteSome(info, old(View()), k)
      ensures var w := old(phase);
              && phase == Writing(w.index, w.payload, w.done + k)
              && file == WriteAt(old(file), w.index * info.chunkSize + w.done, w.payload[w.done..w.done + k])
    {
      var from := phase.done;
      file := WriteAt(file, phase.index * info.chunkSize + from, phase.payload[from..from + k]);
      phase := phase.(done := from + k);
    }

    /** The chunk is on disk: its bit is set, and an update is due exactly when that leaves zero or a
        power of two of zeroes. */
    method OnWriteDone()
      requires Valid() && phase.Writing?
      modifies this, bitmap`zeroes, bitmap.buf
      ensures Valid() && View() == FinishWrite(old(View()))
      ensures bitmap.Bits() == old(bitmap.Bits())[old(phase).index := true]
      ensures phase == Waiting && file == old(file) && bitmapFile == old(bitmapFile)
      ensures due == old(due) + if Notable(bitmap.Bits()) then 1 else 0
    {
      var _ := bitmap.Set(phase.index, true);
      if IsPowerOfTwo(bitmap.zeroes) || bitmap.zeroes == 0 {
        notified, due := notified + 1, due + 1;
      }
      phase := Waiting;
      IsPowerOfTwoIff(bitmap.zeroes);
    }
  }

  function SetLength(file: seq<byte>, length: nat): (r: seq<byte>)
    ensures |r| == length
  {
    if length <= |file| then file[..length] else file + seq(length - |file|, _ => 0)
  }

  class StatusSender {
    var vec: seq<byte>

    constructor ()
    {
      vec := [];
    }

    /** `UploadStatus`: encode the shared bitmap into an MTU-sized buffer, then cut the buffer to
        the complete varints. */
    method StartSend(bitmap: BitMap)
      requires bitmap.Valid()
      modifies this
      ensures vec == StatusBytes(bitmap.Bits(), MTU)
    {
      var buf := new byte[MTU](_ => 0);
      var size := WriteRunlengthEncoded(bitmap, buf);
      vec := buf[..size];
    }
  }

  class UploadClient {
    const info: ChunkInfo
    const src: seq<byte>
    const ranges: MissingRanges
    var sending: Option<nat>
    var finished: bool

    ghost function View(): Client
      reads this, ranges
    {
      Client(ranges.missing, ranges.cursor, sending, finished)
    }

    constructor (src: seq<byte>)
      requires |src| < U64_LIMIT
      ensures IsInfoFor(info, |src|) && this.src == src && fresh(ranges)
      ensures View() == Client([], 0, None, false)
    {
      var chunkInfo := IndexFieldSize(|src|);
      var none := new MissingRanges();
      info, this.src, ranges := chunkInfo, src, none;
      sending, finished := None, false;
    }

    /** Starts the first of the chunks that are left, or sleeps when none is. */
    method StartChunk()
      modifies this`sending, ranges
      ensures View() == DoChunk(old(View()))
      ensures ranges.missing == old(ranges.missing)
      ensures Ordered(ranges.missing) ==>
                IndicesFrom(ranges.missing, old(ranges.cursor))
                  == (if sending.Some? then [sending.value] else []) + IndicesFrom(ranges.missing, ranges.cursor)
      ensures Ordered(ranges.missing) && sending.None? ==> IndicesFrom(ranges.missing, ranges.cursor) == []
    {
      if Ordered(ranges.missing) {
        DoChunkTakes(View());
      }
      sending := ranges.NextChunk();
    }

    /** The current chunk has been read and sent; the next one is started. */
    method OnSent() returns (packet: seq<byte>)
      requires sending.Some? && sending.value < U64_LIMIT && End(info, sending.value) <= |src|
      requires IsInfoFor(info, |src|)
      modifies this`sending, ranges
      ensures packet == ChunkPacket(info, src, old(sending).value)
      ensures var a := old(sending).value * info.chunkSize;
              packet[info.indexFieldSize..] == src[a..a + PayloadSize(info, old(sending).value)]
      ensures View() == DoChunk(old(View()))
      ensures ranges.missing == old(ranges.missing)
      ensures Ordered(ranges.missing) ==>
                IndicesFrom(ranges.missing, old(ranges.cursor))
                  == (if sending.Some? then [sending.value] else []) + IndicesFrom(ranges.missing, ranges.cursor)
    {
      var i := sending.value;
      var payload := if i == info.numChunks - 1 then info.lastChunkSize else info.chunkSize;
      packet := ChunkNew(i, info.indexFieldSize, payload);
      var start := i * info.chunkSize;
      packet := packet[..info.indexFieldSize] + src[start..start + payload];
      StartChunk();
    }

    /** A status update; the FIN packet is returned when nothing is missing. */
    method OnUpdate(update: seq<byte>) returns (ok: bool, fin: Option<seq<byte>>)
      requires IsInfoFor(info, |src|) && |src| < U64_LIMIT
      modifies this, ranges
      ensures ok <==> OnStatus(old(View()), update).Some?
      ensures ok ==> View() == OnStatus(old(View()), update).value
      ensures ok && !old(finished) ==> fin == if finished then Some(FinPacket(info)) else None
      ensures ok <==> DecodeRanges(update).Some?
      ensures ok ==> ranges.missing == DecodeRanges(update).value && finished == (old(finished) || ranges.missing == [])
      ensures ok && (old(sending).Some? || ranges.missing == []) ==> sending == old(sending) && ranges.cursor == 0
      ensures ok && old(sending).None? && Ordered(ranges.missing) && ranges.missing != [] ==>
                && sending.Some?
                && Indices(ranges.missing) == [sending.value] + IndicesFrom(ranges.missing, ranges.cursor)
    {
      fin := None;
      var empty := ranges.ParseStatusUpdate(update);
      if empty.None? {
        return false, None;
      }
      if empty.value {
        finished := true;
        ShiftFits(info.indexFieldSize);
        var packet := ChunkNew(info.numChunks, info.indexFieldSize, 0);
        assert packet == packet[..info.indexFieldSize];
        fin := Some(packet);
      } else if sending.None? {
        if Ordered(ranges.missing) {
          AllFromFirst(ranges.missing);
        }
        StartChunk();
      }
      ok := true;
    }
  }
}
