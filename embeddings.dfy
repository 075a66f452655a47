/**
 * What the face and voice services share: embedding vectors, stored
 * enrolment records, the similarity of two vectors, and the handling of
 * base64 input that may carry a data-URL header.
 */
module Embeddings {
  import opened Wrappers
  import opened Text

  /** A feature vector; the source's `List[float]`. */
  type Embedding = seq<real>

  type Bytes = seq<bv8>

  /**
   * The cosine distance of two vectors of equal length (scipy's `cosine`),
   * or `None` where that call raises. Its floating-point arithmetic is not
   * part of this model, so it is a parameter.
   */
  type Distance = (Embedding, Embedding) -> Option<real>

  /** One stored document of the `face_embeddings` or `voice_embeddings` collection. */
  datatype EmbeddingRecord = EmbeddingRecord(
    familyMemberId: string,
    patientId: string,
    embedding: Embedding,
    createdAt: int)

  /**
   * `compare_embeddings`: one minus the cosine distance, and 0.0 whenever the
   * comparison raises. scipy raises for vectors of different lengths, so a
   * dimension mismatch is not an error here but a similarity of 0.0.
   */
  function CompareEmbeddings(a: Embedding, b: Embedding, dist: Distance): (similarity: real)
    ensures |a| != |b| ==> similarity == 0.0
    ensures |a| == |b| && dist(a, b).None? ==> similarity == 0.0
    ensures |a| == |b| && dist(a, b).Some? ==> similarity == 1.0 - dist(a, b).value
  {
    if |a| != |b| then 0.0
    else match dist(a, b)
      case None => 0.0
      case Some(d) => 1.0 - d
  }

  /**
   * The data-URL handling of `extract_embedding_from_base64`: text holding a
   * comma is cut down to what lies between its first and second comma;
   * other text is kept whole.
   */
  function StripDataUrlPrefix(s: string): (r: string)
    ensures !Contains(s, ",") ==> r == s
    ensures ',' !in r
    ensures Contains(s, ",") ==>
      var i := IndexFrom(s, ",", 0).value;
      && s[i] == ','
      && ',' !in s[..i]
      && i + 1 + |r| <= |s|
      && r == s[i + 1..i + 1 + |r|]
      && (i + 1 + |r| == |s| || s[i + 1 + |r|] == ',')
  {
    if Contains(s, ",") then
      CommaSplit(s);
      SplitSecond(s, ",")
    else
      ContainsComma(s);
      s
  }

  /** What `s.split(",")[1]` is, stated character by character. */
  lemma CommaSplit(s: string)
    requires Contains(s, ",")
    ensures var r := SplitSecond(s, ",");
      var i := IndexFrom(s, ",", 0).value;
      && s[i] == ','
      && ',' !in s[..i]
      && ',' !in r
      && i + 1 + |r| <= |s|
      && r == s[i + 1..i + 1 + |r|]
      && (i + 1 + |r| == |s| || s[i + 1 + |r|] == ',')
  {
    var r := SplitSecond(s, ",");
    var i := IndexFrom(s, ",", 0).value;
    CommaAt(s, i);
    forall k | 0 <= k < |r| ensures r[k] != ',' {
      CommaAt(r, k);
    }
    forall k | 0 <= k < i ensures s[k] != ',' {
      CommaAt(s, k);
    }
    if i + 1 + |r| < |s| {
      assert OccursAt(s, ",", i + 1 + |r|);
      assert s[i + 1 + |r|..i + 2 + |r|] == ",";
    }
  }

  /** The one-character pattern "," occurs exactly where the character is a comma. */
  lemma CommaAt(s: string, j: int)
    requires 0 <= j < |s|
    ensures OccursAt(s, ",", j) <==> s[j] == ','
  {
    assert s[j..j + 1] == [s[j]];
  }

  /** Python's `"," in s` holds exactly when some character of `s` is a comma. */
  lemma ContainsComma(s: string)
    ensures Contains(s, ",") <==> ',' in s
  {
    forall j | 0 <= j < |s|
      ensures OccursAt(s, ",", j) <==> s[j] == ','
    {
      CommaAt(s, j);
    }
    if ',' in s {
      var j :| 0 <= j < |s| && s[j] == ',';
      assert OccursAt(s, ",", j);
    }
  }

  /**
   * A data URL `header,payload` with a comma-free header and payload yields
   * exactly the payload, and a bare payload is left as it is.
   */
  lemma DataUrlPayload(header: string, payload: string)
    requires ',' !in header && ',' !in payload
    ensures StripDataUrlPrefix(header + "," + payload) == payload
    ensures StripDataUrlPrefix(payload) == payload
  {
    ContainsComma(payload);
    var s := header + "," + payload;
    assert s[|header|..|header| + 1] == ",";
    assert OccursAt(s, ",", |header|);
    assert s[..|header|] == header;
    var r := StripDataUrlPrefix(s);
    assert s[|header| + 1..] == payload;
  }

  /**
   * `extract_embedding_from_base64`: strip a data-URL header, decode, extract.
   * A decoding failure gives `None`; otherwise the extractor's answer on the
   * decoded bytes is returned. Decoder and extractor are parameters.
   */
  function ExtractFromBase64(text: string, decode: string -> Option<Bytes>,
                             extract: Bytes -> Option<Embedding>): (r: Option<Embedding>)
    ensures decode(StripDataUrlPrefix(text)).None? ==> r.None?
    ensures decode(StripDataUrlPrefix(text)).Some? ==> r == extract(decode(StripDataUrlPrefix(text)).value)
  {
    match decode(StripDataUrlPrefix(text))
    case None => None
    case Some(bytes) => extract(bytes)
  }
}
