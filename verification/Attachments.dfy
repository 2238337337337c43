/** Sealing, uploading, fetching and opening one attachment, in each of its four forms. */
module Attachments {
  import opened Wrappers
  import opened Positional
  import opened Padding

  const MAX_BYTES: nat := 25 * 1024 * 1024
  const CHUNK_BYTES: nat := 256 * 1024
  const INLINE_MAX_BYTES: nat := 16 * 1000
  const MAGIC: Bytes := [72, 80, 65, 49]
  const NONCE_BYTES: nat := 12
  const TAG_BYTES: nat := 16
  const KEY_BYTES: nat := 32
  /** Width of `usize` where the capsules run. */
  const WORD: nat := 32

  /** The cipher: key, nonce, text. */
  datatype Aead = Aead(seal: (Bytes, Bytes, Bytes) -> Bytes, open: (Bytes, Bytes, Bytes) -> Option<Bytes>)

  ghost predicate Correct(a: Aead) {
    forall key, nonce, text ::
      |a.seal(key, nonce, text)| == |text| + TAG_BYTES && a.open(key, nonce, a.seal(key, nonce, text)) == Some(text)
  }

  datatype Attachment = Attachment(
    size: nat,
    cid: string,
    chunks: seq<string>,
    tickets: seq<string>,
    key: Bytes,
    inlined: Option<Bytes>)

  datatype Failure =
    | Empty | TooLarge | NotStored | NotFetched
    | BadKey | TooShort | NotAuthentic | BadPadding | WrongSize

  /** What each store answers when handed the i-th chunk. */
  datatype Answers = Answers(ticket: nat -> Option<string>, cid: nat -> Option<string>)

  /** What each store returns for a reference. */
  datatype Stores = Stores(blob: string -> Option<Bytes>, content: string -> Option<Bytes>)

  // ── Sealing ───────────────────────────────────────────────────────────────

  function Seal(a: Aead, key: Bytes, nonce: Bytes, bytes: Bytes): Bytes
    requires |bytes| <= MAX_BYTES
  {
    FitsWord();
    MAGIC + nonce + a.seal(key, nonce, PadAttachment(bytes, WORD))
  }

  function Open(a: Aead, blob: Bytes, key: Bytes): Result<Bytes, Failure> {
    var padded := MAGIC <= blob;
    var body := if padded then blob[|MAGIC|..] else blob;
    if |key| != KEY_BYTES then Err(BadKey)
    else if |body| < NONCE_BYTES + TAG_BYTES then Err(TooShort)
    else
      match a.open(key, body[..NONCE_BYTES], body[NONCE_BYTES..])
      case None => Err(NotAuthentic)
      case Some(text) =>
        if !padded then Ok(text)
        else
          match UnpadAttachment(text)
          case Ok(bytes) => Ok(bytes)
          case Err(_) => Err(BadPadding)
  }

  lemma FitsWord()
    ensures 2 * (8 + MAX_BYTES) < Pow(2, WORD)
  {
    assert Pow(2, 8) == 256;
    PowSum(2, 8, 8);
    PowSum(2, 16, 16);
  }

  lemma OpensSealed(a: Aead, key: Bytes, nonce: Bytes, bytes: Bytes)
    requires Correct(a) && |key| == KEY_BYTES && |nonce| == NONCE_BYTES && |bytes| <= MAX_BYTES
    ensures Open(a, Seal(a, key, nonce, bytes), key) == Ok(bytes)
  {
    FitsWord();
    var text := PadAttachment(bytes, WORD);
    AttachmentRoundTrip(bytes, WORD);
    var ct := a.seal(key, nonce, text);
    var blob := MAGIC + nonce + ct;
    assert blob[|MAGIC|..] == nonce + ct;
    assert (nonce + ct)[..NONCE_BYTES] == nonce && (nonce + ct)[NONCE_BYTES..] == ct;
  }

  /** A blob from before padding, a bare nonce and ciphertext, opens too, unless its nonce starts with the magic. */
  lemma OpensLegacy(a: Aead, key: Bytes, nonce: Bytes, bytes: Bytes)
    requires Correct(a) && |key| == KEY_BYTES && |nonce| == NONCE_BYTES && !(MAGIC <= nonce)
    ensures Open(a, nonce + a.seal(key, nonce, bytes), key) == Ok(bytes)
  {
    var ct := a.seal(key, nonce, bytes);
    var blob := nonce + ct;
    assert blob[..NONCE_BYTES] == nonce && blob[NONCE_BYTES..] == ct;
    assert blob[..|MAGIC|] == nonce[..|MAGIC|];
  }

  /** Why a blob does not open, check by check. */
  lemma OpenFailsBecause(a: Aead, blob: Bytes, key: Bytes)
    ensures var sealed := if MAGIC <= blob then blob[4..] else blob;
            && (Open(a, blob, key) == Err(BadKey) <==> |key| != 32)
            && (Open(a, blob, key) == Err(TooShort) <==> |key| == 32 && |sealed| < 28)
            && (Open(a, blob, key) == Err(NotAuthentic) <==>
                  |key| == 32 && |sealed| >= 28 && a.open(key, sealed[..12], sealed[12..]).None?)
            && (Open(a, blob, key) == Err(BadPadding) ==>
                  MAGIC <= blob && |sealed| >= 28 && a.open(key, sealed[..12], sealed[12..]).Some?)
            && (Open(a, blob, key).Ok? ==> |sealed| >= 28 && a.open(key, sealed[..12], sealed[12..]).Some?)
  {
    hide UnpadAttachment;
  }

  // ── Chunks and references ─────────────────────────────────────────────────

  function Chunks(b: Bytes): (cs: seq<Bytes>)
    ensures b == [] <==> cs == []
  {
    if b == [] then []
    else if |b| <= CHUNK_BYTES then [b]
    else [b[..CHUNK_BYTES]] + Chunks(b[CHUNK_BYTES..])
  }

  /** The references to the first `n` chunks, if the store took every one. */
  function Refs(answer: nat -> Option<string>, n: nat): Option<seq<string>> {
    if n == 0 then Some([])
    else
      match Refs(answer, n - 1)
      case None => None
      case Some(refs) => if answer(n - 1).Some? then Some(refs + [answer(n - 1).value]) else None
  }

  /** The bytes behind the references, in order, if every one is there. */
  function Gathered(store: string -> Option<Bytes>, refs: seq<string>): Option<Bytes> {
    if refs == [] then Some([])
    else
      match Gathered(store, refs[..|refs| - 1])
      case None => None
      case Some(b) =>
        var part := store(refs[|refs| - 1]);
        if part.Some? then Some(b + part.value) else None
  }

  function Uploaded(a: Aead, key: Bytes, nonce: Bytes, bytes: Bytes, answers: Answers): Result<Attachment, Failure> {
    if bytes == [] then Err(Empty)
    else if |bytes| > MAX_BYTES then Err(TooLarge)
    else
      var blob := Seal(a, key, nonce, bytes);
      var n := |Chunks(blob)|;
      if |bytes| <= INLINE_MAX_BYTES then Ok(Attachment(|bytes|, "", [], [], key, Some(blob)))
      else if Refs(answers.ticket, n).Some? then
        Ok(Attachment(|bytes|, "", [], Refs(answers.ticket, n).value, key, None))
      else if Refs(answers.cid, n).Some? then
        var cids := Refs(answers.cid, n).value;
        Ok(Attachment(|bytes|, if cids == [] then "" else cids[0], if |cids| > 1 then cids else [], [], key, None))
      else Err(NotStored)
  }

  function Checked(r: Result<Bytes, Failure>, size: nat): Result<Bytes, Failure> {
    if r.Ok? && |r.value| != size then Err(WrongSize) else r
  }

  function Fetched(a: Aead, att: Attachment, stores: Stores): Result<Bytes, Failure> {
    if att.inlined.Some? then Checked(Open(a, att.inlined.value, att.key), att.size)
    else
      var gathered := if att.tickets != [] then Gathered(stores.blob, att.tickets)
                      else Gathered(stores.content, if att.chunks == [] then [att.cid] else att.chunks);
      if gathered.None? then Err(NotFetched)
      else Checked(Open(a, gathered.value, att.key), att.size)
  }

  // ── The operations ────────────────────────────────────────────────────────

  lemma {:induction false} RefsFail(answer: nat -> Option<string>, i: nat, n: nat)
    requires i < n && answer(i).None?
    ensures Refs(answer, n).None?
  {
    if i < n - 1 {
      RefsFail(answer, i, n - 1);
    }
  }

  lemma {:induction false} GatheredFails(store: string -> Option<Bytes>, refs: seq<string>, i: nat)
    requires i < |refs| && store(refs[i]).None?
    ensures Gathered(store, refs).None?
  {
    if i < |refs| - 1 {
      GatheredFails(store, refs[..|refs| - 1], i);
    }
  }

  /** Hands the chunks to a store one by one and gives up at the first that is not taken. */
  method Store(blob: Bytes, answer: nat -> Option<string>) returns (refs: Option<seq<string>>)
    ensures refs == Refs(answer, |Chunks(blob)|)
  {
    var chunks := Chunks(blob);
    var got := [];
    for i := 0 to |chunks|
      invariant Refs(answer, i) == Some(got)
    {
      var r := answer(i);
      if r.None? {
        RefsFail(answer, i, |chunks|);
        return None;
      }
      got := got + [r.value];
    }
    refs := Some(got);
  }

  method Gather(store: string -> Option<Bytes>, refs: seq<string>) returns (blob: Option<Bytes>)
    ensures blob == Gathered(store, refs)
  {
    var got := [];
    for i := 0 to |refs|
      invariant Gathered(store, refs[..i]) == Some(got)
    {
      var part := store(refs[i]);
      if part.None? {
        GatheredFails(store, refs, i);
        return None;
      }
      assert refs[..i + 1][..i] == refs[..i];
      got := got + part.value;
    }
    assert refs[..|refs|] == refs;
    blob := Some(got);
  }

  method Upload(a: Aead, key: Bytes, nonce: Bytes, bytes: Bytes, answers: Answers)
    returns (r: Result<Attachment, Failure>)
    ensures r == Uploaded(a, key, nonce, bytes, answers)
  {
    if bytes == [] {
      return Err(Empty);
    }
    if |bytes| > MAX_BYTES {
      return Err(TooLarge);
    }
    var blob := Seal(a, key, nonce, bytes);
    if |bytes| <= INLINE_MAX_BYTES {
      return Ok(Attachment(|bytes|, "", [], [], key, Some(blob)));
    }
    var tickets := Store(blob, answers.ticket);
    if tickets.Some? {
      return Ok(Attachment(|bytes|, "", [], tickets.value, key, None));
    }
    var stored := Store(blob, answers.cid);
    if stored.None? {
      return Err(NotStored);
    }
    var cids := stored.value;
    var first := if cids != [] then cids[0] else "";
    r := Ok(Attachment(|bytes|, first, if |cids| > 1 then cids else [], [], key, None));
  }

  method Fetch(a: Aead, att: Attachment, stores: Stores) returns (r: Result<Bytes, Failure>)
    ensures r == Fetched(a, att, stores)
  {
    if att.inlined.Some? {
      var text := Open(a, att.inlined.value, att.key);
      return Checked(text, att.size);
    }
    var blob: Option<Bytes>;
    if att.tickets != [] {
      blob := Gather(stores.blob, att.tickets);
    } else {
      blob := Gather(stores.content, if att.chunks == [] then [att.cid] else att.chunks);
    }
    if blob.None? {
      return Err(NotFetched);
    }
    r := Checked(Open(a, blob.value, att.key), att.size);
  }

  // ── Round trip ────────────────────────────────────────────────────────────

  /** Immutable and available: whatever reference a store gave out for a chunk returns that chunk. */
  ghost predicate Faithful(answer: nat -> Option<string>, store: string -> Option<Bytes>, chunks: seq<Bytes>) {
    forall i: nat :: i < |chunks| && answer(i).Some? ==> store(answer(i).value) == Some(chunks[i])
  }

  function Concat(chunks: seq<Bytes>): Bytes {
    if chunks == [] then [] else Concat(chunks[..|chunks| - 1]) + chunks[|chunks| - 1]
  }

  lemma {:induction false} ConcatCons(c: Bytes, rest: seq<Bytes>)
    ensures Concat([c] + rest) == c + Concat(rest)
  {
    var all := [c] + rest;
    if rest == [] {
      assert all[..0] == [];
    } else {
      ConcatCons(c, rest[..|rest| - 1]);
      assert all[..|all| - 1] == [c] + rest[..|rest| - 1];
    }
  }

  lemma {:induction false} ChunksConcat(b: Bytes)
    ensures Concat(Chunks(b)) == b
    ensures forall i :: 0 <= i < |Chunks(b)| ==> 1 <= |Chunks(b)[i]| <= 262_144
    ensures forall i :: 0 <= i < |Chunks(b)| - 1 ==> |Chunks(b)[i]| == 262_144
    decreases |b|
  {
    if b != [] && |b| <= CHUNK_BYTES {
      assert [b][..0] == [];
    } else if b != [] {
      ChunksConcat(b[CHUNK_BYTES..]);
      ConcatCons(b[..CHUNK_BYTES], Chunks(b[CHUNK_BYTES..]));
    }
  }

  lemma {:induction false} GathersBack(answer: nat -> Option<string>, store: string -> Option<Bytes>,
                                       chunks: seq<Bytes>)
    requires Faithful(answer, store, chunks) && Refs(answer, |chunks|).Some?
    ensures |Refs(answer, |chunks|).value| == |chunks|
    ensures Gathered(store, Refs(answer, |chunks|).value) == Some(Concat(chunks))
  {
    if chunks != [] {
      var last := |chunks| - 1;
      GathersBack(answer, store, chunks[..last]);
      var refs := Refs(answer, |chunks|).value;
      assert refs[..last] == Refs(answer, last).value;
    }
  }

  /** Exactly one of inline bytes, tickets, a chunk list and a lone CID says where the blob is. */
  lemma OneForm(a: Aead, key: Bytes, nonce: Bytes, bytes: Bytes, answers: Answers)
    requires Uploaded(a, key, nonce, bytes, answers).Ok?
    ensures var att, n := Uploaded(a, key, nonce, bytes, answers).value, |Chunks(Seal(a, key, nonce, bytes))|;
            && (att.inlined.Some? <==> |bytes| <= INLINE_MAX_BYTES)
            && (att.tickets != [] <==> att.inlined.None? && Refs(answers.ticket, n).Some?)
            && (att.chunks != [] <==> att.inlined.None? && att.tickets == [] && n > 1)
            && (att.chunks != [] ==> att.cid == att.chunks[0])
            && (att.inlined.Some? || att.tickets != [] ==> att.cid == "" && att.chunks == [])
  {
    var n := |Chunks(Seal(a, key, nonce, bytes))|;
    RefsLength(answers.ticket, n);
    RefsLength(answers.cid, n);
  }

  lemma {:induction false} RefsLength(answer: nat -> Option<string>, n: nat)
    ensures Refs(answer, n).Some? ==> |Refs(answer, n).value| == n
    ensures Refs(answer, n).Some? <==> forall i: nat :: i < n ==> answer(i).Some?
  {
    if n > 0 {
      RefsLength(answer, n - 1);
    }
  }

  /** Every one of the first `n` chunks was taken. */
  ghost predicate AllTaken(answer: nat -> Option<string>, n: nat) {
    forall i: nat :: i < n ==> answer(i).Some?
  }

  /**
   An upload succeeds exactly on 1 byte to 25 MiB, inline up to 16 kB or with one store taking every chunk,
   and what fails says why.
   */
  lemma UploadSucceedsExactly(a: Aead, key: Bytes, nonce: Bytes, bytes: Bytes, answers: Answers)
    ensures var r := Uploaded(a, key, nonce, bytes, answers);
            && (r == Err(Empty) <==> bytes == []) && (r == Err(TooLarge) <==> |bytes| > 26_214_400)
            && (1 <= |bytes| <= 26_214_400 ==>
                  var n := |Chunks(Seal(a, key, nonce, bytes))|;
                  && (r.Ok? <==> |bytes| <= 16_000 || AllTaken(answers.ticket, n) || AllTaken(answers.cid, n))
                  && (r.Err? ==> r.error == NotStored))
  {
    if |bytes| <= MAX_BYTES {
      var n := |Chunks(Seal(a, key, nonce, bytes))|;
      RefsLength(answers.ticket, n);
      RefsLength(answers.cid, n);
    }
    hide Seal, Chunks, Refs;
  }

  /** The sealed blob's length tells the size bucket and nothing else. */
  lemma SealedSize(a: Aead, key: Bytes, nonce: Bytes, bytes: Bytes)
    requires Correct(a) && |nonce| == NONCE_BYTES && |bytes| <= MAX_BYTES
    ensures 2 * (8 + |bytes|) < Pow(2, WORD)
    ensures var blob := Seal(a, key, nonce, bytes);
            (forall i :: 0 <= i < 4 ==> blob[i] == "HPA1"[i] as int) && blob[4..16] == nonce
    ensures |Seal(a, key, nonce, bytes)| == 32 + AttachmentBucket(8 + |bytes|, WORD)
  {
    FitsWord();
    AttachmentRoundTrip(bytes, WORD);
    hide PadAttachment, AttachmentBucket;
  }

  /** Whatever the stores return, bytes are handed over only under a 32-byte key and with the size announced. */
  lemma FetchedHasSize(a: Aead, att: Attachment, stores: Stores)
    requires Fetched(a, att, stores).Ok?
    ensures |Fetched(a, att, stores).value| == att.size && |att.key| == 32
  {
    hide Gathered, UnpadAttachment;
  }

  /** Whatever form the upload took, fetching it gives the same bytes back. */
  lemma FetchedIsUploaded(a: Aead, key: Bytes, nonce: Bytes, bytes: Bytes, answers: Answers, stores: Stores)
    requires Correct(a) && |key| == KEY_BYTES && |nonce| == NONCE_BYTES
    requires Uploaded(a, key, nonce, bytes, answers).Ok?
    requires Faithful(answers.ticket, stores.blob, Chunks(Seal(a, key, nonce, bytes)))
    requires Faithful(answers.cid, stores.content, Chunks(Seal(a, key, nonce, bytes)))
    ensures Fetched(a, Uploaded(a, key, nonce, bytes, answers).value, stores) == Ok(bytes)
  {
    var blob := Seal(a, key, nonce, bytes);
    OpensSealed(a, key, nonce, bytes);
    ChunksConcat(blob);
    var chunks := Chunks(blob);
    hide Open, Seal, Faithful, Chunks, Refs, Gathered, Correct;
    if |bytes| > INLINE_MAX_BYTES {
      if Refs(answers.ticket, |chunks|).Some? {
        GathersBack(answers.ticket, stores.blob, chunks);
      } else {
        GathersBack(answers.cid, stores.content, chunks);
        var cids := Refs(answers.cid, |chunks|).value;
        assert |cids| == 1 ==> cids == [cids[0]];
      }
    }
  }
}
