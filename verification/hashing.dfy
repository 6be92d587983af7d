/** Content fingerprints: `get_data_hash` over bytes and `get_file_hash`
    over a local text file, whose decode failure yields the empty digest. */
module Hashing {
  import opened Base

  /** `get_data_hash`: the hex digest, which the script asserts is non-empty. */
  function GetDataHash(digest: Bytes -> Digest, data: Bytes): (r: Outcome<Digest>)
    ensures r.Ok? <==> digest(data) != []
    ensures r.Ok? ==> r.value == digest(data) && r.value != ""
    ensures r.Err? ==> r.fault == EmptyDigest
  {
    var h := digest(data);
    if |h| > 0 then Ok(h) else Err(EmptyDigest)
  }

  /** `get_file_hash` of a file holding `contents`: read as UTF-8 text,
      re-encoded under the configured encoding, hashed; `""` when the read
      fails to decode. */
  function GetFileHash(codec: Codec, digest: Bytes -> Digest, contents: Bytes): (r: Outcome<Digest>)
    ensures codec.decodeUtf8(contents).None? ==> r == Ok("")
    ensures codec.decodeUtf8(contents).Some? ==>
              r == GetDataHash(digest, codec.encodeCfg(codec.decodeUtf8(contents).value))
    ensures r.Ok? && r.value != "" ==> codec.decodeUtf8(contents).Some?
  {
    match codec.decodeUtf8(contents)
    case None => Ok("")
    case Some(text) => GetDataHash(digest, codec.encodeCfg(text))
  }

  /** An undecodable local file never matches any remote digest, so it is always rewritten. */
  lemma UndecodableNeverMatches(codec: Codec, digest: Bytes -> Digest, local: Bytes, remote: Bytes)
    requires codec.decodeUtf8(local).None?
    requires GetDataHash(digest, remote).Ok?
    ensures GetFileHash(codec, digest, local) != GetDataHash(digest, remote)
  {
  }

  /** Writing `decodeCfg(remote)` as UTF-8 and reading it back gives the remote digest. */
  lemma {:induction false} RewrittenFileHashesLikeRemote(codec: Codec, digest: Bytes -> Digest, remote: Bytes, text: Text)
    requires RoundTrips(codec)
    requires codec.decodeCfg(remote) == Some(text)
    ensures GetFileHash(codec, digest, codec.encodeUtf8(text)) == GetDataHash(digest, remote)
  {
    assert codec.decodeUtf8(codec.encodeUtf8(text)) == Some(text);
    assert codec.encodeCfg(text) == remote;
  }
}
