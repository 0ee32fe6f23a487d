/** Pairing codes: eight characters of a 32-letter alphabet, shown with a dash in the middle. */
module Codes {
  import opened Basics

  newtype Byte = b: int | 0 <= b < 256

  type Text = seq<Byte>

  const DASH: Byte := 45

  /** "0123456789ABCDEFGHJKMNPQRSTVWXYZ" */
  const CODE_ALPHABET: Text := [
    48, 49, 50, 51, 52, 53, 54, 55, 56, 57,
    65, 66, 67, 68, 69, 70, 71, 72, 74, 75, 77, 78, 80, 81, 82, 83, 84, 86, 87, 88, 89, 90]

  predicate ValidCode(code: Text) {
    |code| == 8 && forall i :: 0 <= i < 8 ==> code[i] in CODE_ALPHABET
  }

  /** Each byte selects a letter by its low five bits. */
  function EncodeCode(bytes: Text): (code: Text)
    requires |bytes| == 8
    ensures ValidCode(code)
  {
    seq(8, i requires 0 <= i < 8 => CODE_ALPHABET[bytes[i] as int % 32])
  }

  function FormatCode(code: Text): Text
    requires |code| >= 4
  {
    code[..4] + [DASH] + code[4..]
  }

  function ParseDisplayCode(value: Text): Option<Text> {
    if |value| != 9 || value[4] != DASH then None
    else
      var code := value[..4] + value[5..];
      if |code| == 8 && forall i :: 0 <= i < |code| ==> code[i] in CODE_ALPHABET then Some(code) else None
  }

  /** Parsing accepts exactly the formatted valid codes, and returns the code that was formatted. */
  lemma ParseExactlyInvertsFormat(value: Text, code: Text)
    ensures ParseDisplayCode(value) == Some(code) <==> ValidCode(code) && value == FormatCode(code)
  {
    if ParseDisplayCode(value) == Some(code) {
      assert value == value[..4] + [DASH] + value[5..];
      assert code[..4] == value[..4] && code[4..] == value[5..];
    }
    if ValidCode(code) && value == FormatCode(code) {
      assert value[..4] == code[..4] && value[5..] == code[4..];
      assert value[..4] + value[5..] == code;
    }
  }

  /** The place of a letter in the alphabet, which leaves out I, L, O and U. */
  function LetterIndex(b: Byte): int {
    var c := b as int;
    if c <= 57 then c - 48 else if c <= 72 then c - 55 else if c <= 75 then c - 56
    else if c <= 78 then c - 57 else if c <= 84 then c - 58 else c - 59
  }

  /** The letters of the alphabet are 32 different ones. */
  lemma LettersHaveIndices(n: nat)
    requires n < 32
    ensures LetterIndex(CODE_ALPHABET[n]) == n
  {
  }

  /** Two generated byte strings give the same code exactly when the low five bits of every byte agree. */
  lemma EncodesAlikeExactly(a: Text, b: Text)
    requires |a| == 8 && |b| == 8
    ensures EncodeCode(a) == EncodeCode(b) <==> forall i :: 0 <= i < 8 ==> a[i] as int % 32 == b[i] as int % 32
  {
    hide LetterIndex;
    if EncodeCode(a) == EncodeCode(b) {
      forall i | 0 <= i < 8 ensures a[i] as int % 32 == b[i] as int % 32 {
        assert EncodeCode(a)[i] == EncodeCode(b)[i];
        LettersHaveIndices(a[i] as int % 32);
        LettersHaveIndices(b[i] as int % 32);
      }
    }
  }

  /** A byte that selects this letter. */
  function ByteFor(letter: Byte): Byte {
    if 0 <= LetterIndex(letter) < 32 then LetterIndex(letter) as Byte else 0
  }

  lemma ByteAt(n: nat)
    requires n < 32
    ensures ByteFor(CODE_ALPHABET[n]) as int % 32 == n
  {
    LettersHaveIndices(n);
    hide LetterIndex;
  }

  lemma ByteSelects(letter: Byte)
    requires letter in CODE_ALPHABET
    ensures CODE_ALPHABET[ByteFor(letter) as int % 32] == letter
  {
    hide LetterIndex, ByteFor;
    var n :| 0 <= n < |CODE_ALPHABET| && CODE_ALPHABET[n] == letter;
    ByteAt(n);
  }

  lemma CodeLetter(bytes: Text, i: nat)
    requires |bytes| == 8 && i < 8
    ensures EncodeCode(bytes)[i] == CODE_ALPHABET[bytes[i] as int % 32]
  {
  }

  /** Every valid code is the code of some bytes. */
  lemma EveryCodeIsReached(code: Text) returns (bytes: Text)
    requires ValidCode(code)
    ensures |bytes| == 8 && EncodeCode(bytes) == code
  {
    hide LetterIndex, ByteFor, EncodeCode;
    bytes := seq(8, i requires 0 <= i < 8 => ByteFor(code[i]));
    forall i | 0 <= i < 8 ensures EncodeCode(bytes)[i] == code[i] {
      CodeLetter(bytes, i);
      ByteSelects(code[i]);
    }
  }
}
