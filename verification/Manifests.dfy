/** Update manifests (internal/selfupdate/update.go): which are accepted, when a download is, and the
    file operations that both ways of installing share. */
module Manifests {
  import opened Common
  import opened Text

  type Bytes = seq<bv8>

  predicate LowerHex(s: string) { forall i | 0 <= i < |s| :: '0' <= s[i] <= '9' || 'a' <= s[i] <= 'f' }

  /** SHA-256 in hexadecimal. */
  type Digest = Bytes -> string

  /** `hex.EncodeToString` writes small letters. */
  ghost predicate Hex(digest: Digest) { forall data :: LowerHex(digest(data)) }

  datatype Manifest = Manifest(version: string, sha256: string, size: nat)

  /** The staged manifest as the runner reads it. */
  datatype Note = Corrupt | Note(version: string, sha256: string)

  const DIGEST_LENGTH := 64
  const MAX_INT64 := 0x7fff_ffff_ffff_ffff

  /** The comparisons of `verify` and `download`. */
  predicate Matches(digest: Digest, data: Bytes, want: string) { EqualFold(digest(data), TrimSpace(want)) }

  /** Apart from spaces around it, `want` is the digest `d`, written with small or capital letters. */
  predicate Spells(want: string, d: string) {
    var t := TrimSpace(want);
    && |t| == |d|
    && forall i | 0 <= i < |t| ::
         t[i] == d[i] || ('A' <= t[i] <= 'F' && d[i] as int - t[i] as int == 'a' as int - 'A' as int)
  }

  /** The comparison that ignores case compares digests. */
  lemma MatchesExactly(digest: Digest, data: Bytes, want: string)
    requires Hex(digest)
    ensures Matches(digest, data, want) <==> Spells(want, digest(data))
  {
    hide TrimSpace;
    assert LowerHex(digest(data));
  }

  /** A manifest accepts the bodies of one digest only. */
  lemma OneDigest(digest: Digest, a: Bytes, b: Bytes, want: string)
    requires Hex(digest) && Matches(digest, a, want) && Matches(digest, b, want)
    ensures digest(a) == digest(b)
  {
    hide TrimSpace;
    assert LowerHex(digest(a)) && LowerHex(digest(b));
    var t := TrimSpace(want);
    forall i | 0 <= i < |t| ensures digest(a)[i] == digest(b)[i] {
      assert Lower(digest(a)[i]) == Lower(t[i]) == Lower(digest(b)[i]);
    }
  }

  /** `validate`, but for the URL. */
  predicate ValidManifest(m: Manifest) {
    && TrimSpace(m.version) != "" && m.version != "." && m.version != ".."
    && '/' !in m.version && '\\' !in m.version
    && |TrimSpace(m.sha256)| == DIGEST_LENGTH
    && 0 < m.size < MAX_INT64
  }

  /** A download is good if it has the announced size and digest. */
  predicate Downloaded(digest: Digest, m: Manifest, body: Bytes) { |body| == m.size && Matches(digest, body, m.sha256) }

  function Written(m: Manifest): Note { Note(m.version, m.sha256) }

  /** `readManifest` accepts this file. */
  predicate Readable(note: Note) { note.Note? && TrimSpace(note.sha256) != "" }

  /** A version that becomes the name of a directory holds no separator and is not one of the two names that lead
      elsewhere. */
  lemma ValidExactly(m: Manifest)
    ensures ValidManifest(m) <==>
              && (exists i :: 0 <= i < |m.version| && !IsSpace(m.version[i])) && m.version != "." && m.version != ".."
              && (forall i | 0 <= i < |m.version| :: m.version[i] != '/' && m.version[i] != '\\')
              && |TrimSpace(m.sha256)| == 64 && 0 < m.size && m.size + 1 <= 0x7fff_ffff_ffff_ffff
  {
    hide IsSpace, TrimSpace;
    TrimsAway(m.version);
  }

  /** A string trims to nothing exactly if it is all spaces. */
  lemma TrimsAway(s: string)
    ensures TrimSpace(s) != "" <==> exists i :: 0 <= i < |s| && !IsSpace(s[i])
  {
    hide IsSpace;
    var i, j := TrimSpaceCuts(s);
    if i < j { assert !IsSpace(s[i]); }
  }

  /** The runner reads back every staged manifest whose digest is not blank. */
  lemma ReadableExactly(note: Note)
    ensures Readable(note) <==> note.Note? && exists i :: 0 <= i < |note.sha256| && !IsSpace(note.sha256[i])
  {
    hide IsSpace, TrimSpace;
    if note.Note? { TrimsAway(note.sha256); }
  }

  lemma ValidIsReadable(m: Manifest)
    requires ValidManifest(m)
    ensures Readable(Written(m))
  {}

  /** An `os.Remove`: it may fail, and its error is ignored. */
  predicate Removed<T(==)>(before: Option<T>, after: Option<T>) { after == before || after == None }

  /** `os.Remove`, whose error the callers ignore; `ok` says whether it works. */
  method Remove<T(==)>(f: Option<T>, ok: bool) returns (f': Option<T>)
    ensures Removed(f, f')
    ensures f' == if ok then None else f
  {
    f' := if ok then None else f;
  }

  /** `download`, which writes and hashes at most one byte more than announced. `body` is what the
      response would deliver, if it does not break off. */
  method Download(digest: Digest, m: Manifest, body: Option<Bytes>) returns (data: Option<Bytes>)
    ensures data.Some? <==> body.Some? && Downloaded(digest, m, body.value)
    ensures data.Some? ==> data == body
    ensures Hex(digest) ==> (data.Some? <==>
                               body.Some? && |body.value| == m.size && Spells(m.sha256, digest(body.value)))
  {
    if Hex(digest) && body.Some? { MatchesExactly(digest, body.value, m.sha256); }
    hide Spells, Hex;
    if body.None? { return None; }
    var limit := m.size + 1;
    var written := if |body.value| < limit then body.value else body.value[..limit];
    if |written| > m.size { return None; }
    if |written| != m.size { return None; }
    if !Matches(digest, written, m.sha256) { return None; }
    return Some(written);
  }
}
