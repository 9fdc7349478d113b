/** Big-endian 16-bit words, as every field of a Modbus frame is sent. */
module Bytes {

  type byte = b: int | 0 <= b < 256
  type word = w: int | 0 <= w < 65536

  function Word(high: byte, low: byte): word {
    256 * high + low
  }

  function High(w: word): byte {
    w / 256
  }

  function Low(w: word): byte {
    w % 256
  }

  lemma WordRoundTrip(w: word, high: byte, low: byte)
    ensures Word(High(w), Low(w)) == w
    ensures High(Word(high, low)) == high && Low(Word(high, low)) == low
  {
  }

  function WordsBytes(words: seq<word>): (bytes: seq<byte>)
    ensures |bytes| == 2 * |words|
  {
    if words == [] then [] else [High(words[0]), Low(words[0])] + WordsBytes(words[1..])
  }

  function Words(bytes: seq<byte>): (words: seq<word>)
    requires |bytes| % 2 == 0
    ensures 2 * |words| == |bytes|
  {
    if bytes == [] then [] else [Word(bytes[0], bytes[1])] + Words(bytes[2..])
  }

  lemma {:induction false} WordsRoundTrip(words: seq<word>)
    ensures Words(WordsBytes(words)) == words
  {
    if words != [] {
      WordsRoundTrip(words[1..]);
      assert WordsBytes(words)[2..] == WordsBytes(words[1..]);
    }
  }

  lemma FirstWord(w: word, rest: seq<word>)
    ensures WordsBytes([w] + rest) == [High(w), Low(w)] + WordsBytes(rest)
  {
    assert ([w] + rest)[1..] == rest;
  }

  lemma {:induction false} BytesRoundTrip(bytes: seq<byte>)
    requires |bytes| % 2 == 0
    ensures WordsBytes(Words(bytes)) == bytes
  {
    if bytes != [] {
      var w, rest := Word(bytes[0], bytes[1]), Words(bytes[2..]);
      BytesRoundTrip(bytes[2..]);
      WordRoundTrip(w, bytes[0], bytes[1]);
      FirstWord(w, rest);
      assert bytes == [bytes[0], bytes[1]] + bytes[2..];
    }
  }
}
