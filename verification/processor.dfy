/** Reading a release manifest (internal/tools/processor/processor.go): the digest in one go, and the
    digest taken on the way while the manifest is being decoded. */
module Processor {
  import opened Wrappers
  import opened Hasher

  datatype MinimalMetadata = MinimalMetadata(apiVersion: string, kind: string, name: string, namespace: string)

  /** One document of the stream, as the decoder delivers it. */
  datatype Document = Document(meta: MinimalMetadata) | Malformed

  /** The YAML/JSON grammar: which documents a manifest consists of. */
  type Grammar = seq<byte> -> seq<Document>

  /** The length of the white space character that opens the text, in its UTF-8 form; 0 if there is none. */
  function SpaceLength(m: seq<byte>): (n: nat)
    ensures n <= |m|
  {
    if m == [] then 0
    else if 9 <= m[0] <= 13 || m[0] == 32 then 1
    else if |m| >= 2 && m[0] == 0xC2 && (m[1] == 0x85 || m[1] == 0xA0) then 2
    else if |m| < 3 then 0
    else if m[0] == 0xE1 && m[1] == 0x9A && m[2] == 0x80 then 3
    else if m[0] == 0xE2 && m[1] == 0x80 && (0x80 <= m[2] <= 0x8A || m[2] == 0xA8 || m[2] == 0xA9 || m[2] == 0xAF) then 3
    else if m[0] == 0xE2 && m[1] == 0x81 && m[2] == 0x9F then 3
    else if m[0] == 0xE3 && m[1] == 0x80 && m[2] == 0x80 then 3
    else 0
  }

  /** Nothing is left of the text when it is trimmed. */
  predicate Blank(m: seq<byte>) {
    m == [] || (SpaceLength(m) > 0 && Blank(m[SpaceLength(m)..]))
  }

  function Digest(manifest: seq<byte>): string {
    if Blank(manifest) then "" else Hex(Fnv(BASIS, manifest))
  }

  /** The documents that are objects: those with an apiVersion; None if one is malformed. */
  function ObjectsIn(documents: seq<Document>): Option<seq<MinimalMetadata>> {
    if documents == [] then Some([])
    else
      var objects :- ObjectsIn(documents[..|documents| - 1]);
      match documents[|documents| - 1]
      case Malformed => None
      case Document(meta) => Some(if meta.apiVersion == "" then objects else objects + [meta])
  }

  function Decoded(manifest: seq<byte>, grammar: Grammar): Option<(seq<MinimalMetadata>, string)> {
    if Blank(manifest) then Some(([], ""))
    else
      var objects :- ObjectsIn(grammar(manifest));
      Some((objects, Digest(manifest)))
  }

  method ComputeReleaseDigest(manifest: seq<byte>) returns (digest: string)
    ensures digest == Digest(manifest)
  {
    if Blank(manifest) { return ""; }
    var h := new ObjectHash.NewFNVObjectHash();
    h.SumHashStrings([manifest]);
    JoinedStep([manifest], 0);
    assert h.written == [] + Joined([manifest][..0]) + manifest == manifest;
    digest := h.GetHash();
  }

  /** Hands out the source in pieces and shows each piece to the hash. */
  class TeeReader {
    const source: seq<byte>
    const hash: ObjectHash
    var position: nat

    ghost predicate Valid()
      reads this, hash
    {
      hash.Valid() && position <= |source| && hash.written == source[..position]
    }

    constructor (source: seq<byte>, hash: ObjectHash)
      requires hash.Valid() && hash.written == []
      ensures Valid() && this.source == source && this.hash == hash && position == 0
    {
      this.source, this.hash, this.position := source, hash, 0;
    }

    method Read(limit: nat) returns (piece: seq<byte>)
      requires Valid()
      modifies this, hash
      ensures Valid()
      ensures old(position) <= position && piece == source[old(position)..position]
      ensures limit > 0 && old(position) < |source| ==> old(position) < position
    {
      var n := if position + limit <= |source| then limit else |source| - position;
      piece := source[position..position + n];
      hash.Write(piece);
      assert source[..position] + piece == source[..position + n];
      position := position + n;
    }
  }

  datatype Next = Object(document: Document) | EOF

  /** A streaming decoder. Before it delivers a document it reads as many pieces of whatever size it
      likes; it reports the end only once the source is exhausted. */
  class Decoder {
    const reader: TeeReader
    const documents: seq<Document>
    var next: nat

    ghost predicate Valid()
      reads this, reader, reader.hash
    {
      reader.Valid() && next <= |documents|
    }

    constructor (reader: TeeReader, grammar: Grammar)
      requires reader.Valid()
      ensures Valid() && this.reader == reader && documents == grammar(reader.source) && next == 0
    {
      this.reader, this.documents, this.next := reader, grammar(reader.source), 0;
    }

    method Decode() returns (r: Next)
      requires Valid()
      modifies this, reader, reader.hash
      ensures Valid()
      ensures r.EOF? ==> old(next) == next == |documents| && reader.position == |reader.source|
      ensures r.Object? ==> old(next) < |documents| && next == old(next) + 1 && r.document == documents[old(next)]
    {
      var atEnd := next == |documents|;
      var more := true;
      while reader.position < |reader.source| && more
        invariant reader.Valid() && next == old(next)
        invariant !more ==> !atEnd
        decreases |reader.source| - reader.position, more
      {
        if !atEnd {
          more := *;
        }
        if more {
          var size: nat :| size > 0;
          var piece := reader.Read(size);
        }
      }
      if atEnd { return EOF; }
      r := Object(documents[next]);
      next := next + 1;
    }
  }

  /** The release is absent when a failed upgrade left nothing to decode. */
  method DecodeRelease(manifest: Option<seq<byte>>, grammar: Grammar) returns (r: Option<(seq<MinimalMetadata>, string)>)
    ensures r == if manifest.Some? then Decoded(manifest.value, grammar) else Some(([], ""))
  {
    if manifest.None? { return Some(([], "")); }
    if Blank(manifest.value) { return Some(([], "")); }

    var h := new ObjectHash.NewFNVObjectHash();
    var reader := new TeeReader(manifest.value, h);
    var decoder := new Decoder(reader, grammar);
    var objects: seq<MinimalMetadata> := [];
    while true
      invariant decoder.Valid() && decoder.reader == reader && reader.hash == h && reader.source == manifest.value
      invariant decoder.documents == grammar(manifest.value)
      invariant ObjectsIn(decoder.documents[..decoder.next]) == Some(objects)
      invariant fresh(decoder) && fresh(reader) && fresh(h)
      decreases |decoder.documents| - decoder.next
    {
      ghost var i := decoder.next;
      var item := decoder.Decode();
      if item.EOF? { break; }
      assert decoder.documents[..i + 1][..i] == decoder.documents[..i];
      match item.document {
        case Malformed =>
          MalformedStays(decoder.documents, i);
          return None;
        case Document(meta) =>
          if meta.apiVersion == "" { continue; }
          objects := objects + [meta];
      }
    }
    assert decoder.documents[..decoder.next] == decoder.documents;
    assert reader.source[..reader.position] == manifest.value;
    var digest := h.GetHash();
    r := Some((objects, digest));
  }

  lemma {:induction false} MalformedStays(documents: seq<Document>, i: nat)
    requires i < |documents| && documents[i].Malformed?
    ensures ObjectsIn(documents).None?
  {
    if i < |documents| - 1 {
      MalformedStays(documents[..|documents| - 1], i);
    }
  }

  /** The fast form and the slow form agree: a decoding that succeeds, however the decoder chunked
      its reads, yields the digest of the manifest, and yields exactly its objects. */
  lemma FastEqualsSlow(manifest: seq<byte>, grammar: Grammar)
    ensures Decoded(manifest, grammar).Some? ==>
              Decoded(manifest, grammar).value.1 == Digest(manifest)
    ensures Decoded(manifest, grammar).Some? <==>
              Blank(manifest) || forall d :: d in grammar(manifest) ==> d.Document?
  {
    ObjectsAre(grammar(manifest));
  }

  lemma {:induction false} ObjectsAre(documents: seq<Document>)
    ensures ObjectsIn(documents).Some? <==> forall d :: d in documents ==> d.Document?
    ensures ObjectsIn(documents).Some? ==>
              forall meta :: meta in ObjectsIn(documents).value <==> Document(meta) in documents && meta.apiVersion != ""
  {
    if documents == [] {
    } else {
      var init, last := documents[..|documents| - 1], documents[|documents| - 1];
      assert documents == init + [last];
      ObjectsAre(init);
      assert last in documents;
    }
  }

  /** The order of the manifest is kept. */
  lemma {:induction false} ObjectsConcat(xs: seq<Document>, ys: seq<Document>)
    ensures ObjectsIn(xs + ys) ==
            if ObjectsIn(xs).Some? && ObjectsIn(ys).Some? then Some(ObjectsIn(xs).value + ObjectsIn(ys).value) else None
  {
    if ys == [] {
      assert xs + ys == xs;
      assert ObjectsIn(xs).Some? ==> ObjectsIn(xs).value + [] == ObjectsIn(xs).value;
    } else {
      assert (xs + ys)[..|xs + ys| - 1] == xs + ys[..|ys| - 1];
      ObjectsConcat(xs, ys[..|ys| - 1]);
      var last := ys[|ys| - 1];
      assert (xs + ys)[|xs + ys| - 1] == last;
      if ObjectsIn(xs).Some? && ObjectsIn(ys[..|ys| - 1]).Some? && last.Document? {
        var x, y := ObjectsIn(xs).value, ObjectsIn(ys[..|ys| - 1]).value;
        assert x + y + [last.meta] == x + (y + [last.meta]);
      }
    }
  }

  /** Manifests that differ in exactly one octet have the same digest only if both are blank. */
  lemma ChangeDetected(before: seq<byte>, b: byte, c: byte, after: seq<byte>)
    requires b != c
    ensures Digest(before + [b] + after) == Digest(before + [c] + after) <==>
            Blank(before + [b] + after) && Blank(before + [c] + after)
  {
    FnvSeparates(BASIS, before, b, c, after);
    HexReadsBack(Fnv(BASIS, before + [b] + after));
    HexReadsBack(Fnv(BASIS, before + [c] + after));
  }
}
