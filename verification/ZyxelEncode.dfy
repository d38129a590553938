/** The obfuscated password of the login form: the password backwards at every fifth position, its
    length in two other positions, and filler everywhere else. */
module ZyxelEncode {
  import opened Decimal

  /** What the encoder appends at position `i`, counted from 1: a string, of one character except for
      the tens of lengths from 100 on. */
  function Piece(pw: string, filler: nat -> char, i: nat): string {
    var n := |pw|;
    if i % 5 == 0 && 0 < i / 5 <= n then [pw[n - i / 5]]
    else if i == 123 then (if n < 10 then "0" else Digits(n / 10))
    else if i == 289 then Digits(n % 10)
    else [filler(i)]
  }

  /** The first `k` pieces. */
  function Pieces(pw: string, filler: nat -> char, k: nat): string {
    if k == 0 then "" else Pieces(pw, filler, k - 1) + Piece(pw, filler, k)
  }

  function LastPosition(n: nat): nat {
    if n <= 321 then 321 - n else 0
  }

  function Encoded(pw: string, filler: nat -> char): string {
    Pieces(pw, filler, LastPosition(|pw|))
  }

  /** The encoding loop; `filler(i)` is the random character drawn for position `i`. */
  method Encode(pw: string, filler: nat -> char) returns (text: string)
    ensures text == Encoded(pw, filler)
  {
    text := "";
    var ln, lenn, i := |pw|, |pw|, 1;
    while i <= 321 - |pw|
      invariant 1 <= i && (i <= LastPosition(lenn) + 1)
      invariant ln == if (i - 1) / 5 <= lenn then lenn - (i - 1) / 5 else 0
      invariant text == Pieces(pw, filler, i - 1)
      decreases 322 - i
    {
      if i % 5 == 0 && ln > 0 {
        ln := ln - 1;
        text := text + [pw[ln]];
      } else if i == 123 {
        text := text + if lenn < 10 then "0" else Digits(lenn / 10);
      } else if i == 289 {
        text := text + Digits(lenn % 10);
      } else {
        text := text + [filler(i)];
      }
      i := i + 1;
    }
  }

  /** Below 100 characters every piece is one character. */
  lemma PieceIsOneChar(pw: string, filler: nat -> char, i: nat)
    requires |pw| < 100 || i != 123
    ensures |Piece(pw, filler, i)| == 1
  {
  }

  lemma {:induction false} PiecesPrefix(pw: string, filler: nat -> char, k: nat)
    requires |pw| < 100
    ensures |Pieces(pw, filler, k)| == k
    ensures forall i: nat | 1 <= i <= k :: [Pieces(pw, filler, k)[i - 1]] == Piece(pw, filler, i)
  {
    if k > 0 {
      PiecesPrefix(pw, filler, k - 1);
      PieceIsOneChar(pw, filler, k);
    }
  }

  lemma {:induction false} PiecesLength(pw: string, filler: nat -> char, k: nat)
    ensures |Pieces(pw, filler, k)| == k + if k >= 123 then |Piece(pw, filler, 123)| - 1 else 0
  {
    if k > 0 {
      PiecesLength(pw, filler, k - 1);
      if k != 123 {
        PieceIsOneChar(pw, filler, k);
      }
    }
  }

  /** The text is not always of 321 characters: it has 321 minus the length of the password, one more
      when a length of three digits is written at position 123, and none from 321 on. */
  lemma EncodedLength(pw: string, filler: nat -> char)
    ensures var n := |pw|;
            |Encoded(pw, filler)| == if n >= 321 then 0 else if 100 <= n <= 198 then 322 - n else 321 - n
  {
    var n := |pw|;
    PiecesLength(pw, filler, LastPosition(n));
    if n < 100 {
      PieceIsOneChar(pw, filler, 123);
    } else {
      DigitsLength(n / 10, 1);
      DigitsLength(n / 10, 2);
      assert Power10(2) == 10 * Power10(1) && Power10(1) == 10 * Power10(0);
    }
  }

  /** What a receiver reads: the length from positions 123 and 289, then the password. */
  function DecodedLength(text: string): int
    requires |text| >= 289
  {
    10 * (text[122] as int - '0' as int) + (text[288] as int - '0' as int)
  }

  function Decoded(text: string): string
    requires |text| >= 289
  {
    var n := DecodedLength(text);
    if 0 <= n && 5 * n <= |text| then seq(n, j requires 0 <= j < n => text[5 * (n - j) - 1]) else ""
  }

  /** Up to 53 characters, every one is written, at a place that only depends on the length. */
  lemma CharIsPlaced(pw: string, filler: nat -> char, j: nat)
    requires j < |pw| <= 53
    ensures |Encoded(pw, filler)| == 321 - |pw|
    ensures Encoded(pw, filler)[5 * (|pw| - j) - 1] == pw[j]
  {
    var n := |pw|;
    PiecesPrefix(pw, filler, 321 - n);
    assert [Encoded(pw, filler)[5 * (n - j) - 1]] == Piece(pw, filler, 5 * (n - j));
  }

  lemma LengthIsPlaced(pw: string, filler: nat -> char)
    requires |pw| <= 32
    ensures |Encoded(pw, filler)| == 321 - |pw| && DecodedLength(Encoded(pw, filler)) == |pw|
  {
    var n := |pw|;
    var text := Encoded(pw, filler);
    PiecesPrefix(pw, filler, 321 - n);
    assert [text[122]] == Piece(pw, filler, 123) && [text[288]] == Piece(pw, filler, 289);
    assert DecodedLength(text) == 10 * (n / 10) + n % 10;
  }

  /** Every password of up to 32 characters is recovered exactly, whatever the filler. */
  lemma PasswordIsRecovered(pw: string, filler: nat -> char)
    requires |pw| <= 32
    ensures |Encoded(pw, filler)| == 321 - |pw|
    ensures Decoded(Encoded(pw, filler)) == pw
  {
    var n := |pw|;
    var text := Encoded(pw, filler);
    LengthIsPlaced(pw, filler);
    forall j | 0 <= j < n
      ensures text[5 * (n - j) - 1] == pw[j]
    {
      CharIsPlaced(pw, filler, j);
    }
  }

  /** Up to 53 characters, the text determines a password of known length. */
  lemma TextDeterminesPassword(pw: string, filler: nat -> char, pw': string, filler': nat -> char)
    requires |pw| == |pw'| <= 53
    requires Encoded(pw, filler) == Encoded(pw', filler')
    ensures pw == pw'
  {
    forall j | 0 <= j < |pw|
      ensures pw[j] == pw'[j]
    {
      CharIsPlaced(pw, filler, j);
      CharIsPlaced(pw', filler', j);
    }
  }

  lemma FirstCharNotIn(pw: string, c: char, filler: nat -> char, i: nat)
    requires pw != [] && i < 5 * |pw|
    ensures Piece(pw[0 := c], filler, i) == Piece(pw, filler, i)
  {
  }

  lemma {:induction false} FirstCharUnused(pw: string, c: char, filler: nat -> char, k: nat)
    requires pw != [] && k < 5 * |pw|
    ensures Pieces(pw[0 := c], filler, k) == Pieces(pw, filler, k)
  {
    if k > 0 {
      FirstCharUnused(pw, c, filler, k - 1);
      FirstCharNotIn(pw, c, filler, k);
    }
  }

  /** From 54 characters on it does not: the first character of the password is never written. */
  lemma LongPasswordsCollide(pw: string, c: char, filler: nat -> char)
    requires |pw| >= 54
    ensures Encoded(pw[0 := c], filler) == Encoded(pw, filler)
    ensures c != pw[0] ==> pw[0 := c] != pw
  {
    assert pw[0 := c][0] == c;
    FirstCharUnused(pw, c, filler, LastPosition(|pw|));
  }
}
