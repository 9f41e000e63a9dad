/**
 The two upload gates: document_service.validate_file and virus_scan.validate_mime must
 accept the same files.
 */
module UploadGate {
  import opened Wrappers

  type Byte = b: int | 0 <= b < 256

  type Bytes = seq<Byte>

  // ---------------------------------------------------------------------------------------
  // Decoding (UTF-8 as in section 3 of RFC 3629)
  // ---------------------------------------------------------------------------------------

  predicate Tail(b: Byte) {
    0x80 <= b <= 0xBF
  }

  /** The length of the well-formed sequence at the front, 0 if there is none. */
  function SequenceLength(s: Bytes): (n: nat)
    ensures n <= |s| && n <= 4
  {
    if s == [] then 0
    else if s[0] < 0x80 then 1
    else if |s| >= 2 && 0xC2 <= s[0] <= 0xDF && Tail(s[1]) then 2
    else if |s| >= 3 && Tail(s[2]) &&
      ((s[0] == 0xE0 && 0xA0 <= s[1] <= 0xBF) || (0xE1 <= s[0] <= 0xEC && Tail(s[1]))
       || (s[0] == 0xED && 0x80 <= s[1] <= 0x9F) || (0xEE <= s[0] <= 0xEF && Tail(s[1]))) then 3
    else if |s| >= 4 && Tail(s[2]) && Tail(s[3]) &&
      ((s[0] == 0xF0 && 0x90 <= s[1] <= 0xBF) || (0xF1 <= s[0] <= 0xF3 && Tail(s[1]))
       || (s[0] == 0xF4 && 0x80 <= s[1] <= 0x8F)) then 4
    else 0
  }

  /** The character number of a well-formed sequence. */
  function Scalar(s: Bytes): int
    requires SequenceLength(s) > 0
  {
    match SequenceLength(s)
    case 1 => s[0] as int
    case 2 => (s[0] as int - 0xC0) * 0x40 + (s[1] as int - 0x80)
    case 3 => (s[0] as int - 0xE0) * 0x1000 + (s[1] as int - 0x80) * 0x40 + (s[2] as int - 0x80)
    case _ =>
      var high := (s[0] as int - 0xF0) * 0x40 + (s[1] as int - 0x80);
      high * 0x1000 + (s[2] as int - 0x80) * 0x40 + (s[3] as int - 0x80)
  }

  /** bytes.decode("utf-8"): None where Python raises UnicodeDecodeError. */
  function DecodeUtf8(s: Bytes): Option<seq<int>>
    decreases |s|
  {
    if s == [] then Some([])
    else
      var n := SequenceLength(s);
      if n == 0 then None
      else
        var rest := DecodeUtf8(s[n..]);
        if rest.None? then None else Some([Scalar(s)] + rest.value)
  }

  /** Multi-byte sequences contain no ASCII byte and encode no ASCII character. */
  lemma OneSequence(s: Bytes, c: int)
    requires SequenceLength(s) > 0 && 0 <= c < 0x80
    ensures Scalar(s) == c <==> c in s[..SequenceLength(s)]
  {
    var n := SequenceLength(s);
    if n == 1 {
      assert s[..1] == [s[0]];
    } else {
      assert forall i :: 0 <= i < n ==> s[i] >= 0x80;
      assert Scalar(s) >= 0x80;
    }
  }

  /** UTF-8 encoding of one character. */
  function Encode(c: int): Bytes
    requires 0 <= c < 0x11_0000
  {
    if c < 0x80 then [c]
    else if c < 0x800 then [0xC0 + c / 0x40, 0x80 + c % 0x40]
    else if c < 0x1_0000 then [0xE0 + c / 0x1000, 0x80 + c / 0x40 % 0x40, 0x80 + c % 0x40]
    else [0xF0 + c / 0x4_0000, 0x80 + c / 0x1000 % 0x40, 0x80 + c / 0x40 % 0x40, 0x80 + c % 0x40]
  }

  lemma Base64Digits(high: int, low: int)
    requires high >= 0 && 0 <= low < 0x40
    ensures (high * 0x40 + low) / 0x40 == high && (high * 0x40 + low) % 0x40 == low
  {
  }

  /** The quotients of a number written in three or four base-64 digits. */
  lemma ThreeDigits(a: int, b: int, c: int)
    requires a >= 0 && 0 <= b < 0x40 && 0 <= c < 0x40
    ensures var v := a * 0x1000 + b * 0x40 + c;
      v / 0x1000 == a && v / 0x40 == a * 0x40 + b && v / 0x40 % 0x40 == b && v % 0x40 == c
  {
    Base64Digits(a * 0x40 + b, c);
    Base64Digits(a, b);
  }

  lemma FourDigits(a: int, b: int, c: int, d: int)
    requires a >= 0 && 0 <= b < 0x40 && 0 <= c < 0x40 && 0 <= d < 0x40
    ensures var v := a * 0x4_0000 + b * 0x1000 + c * 0x40 + d;
      v / 0x4_0000 == a && v / 0x1000 % 0x40 == b && v / 0x40 % 0x40 == c && v % 0x40 == d
  {
    ThreeDigits(a * 0x40 + b, c, d);
    Base64Digits(a, b);
  }

  /** A well-formed sequence encodes a character in its shortest form, and no surrogate. */
  lemma SequenceIsShortest(s: Bytes)
    requires SequenceLength(s) > 0
    ensures 0 <= Scalar(s) < 0x11_0000 && !(0xD800 <= Scalar(s) < 0xE000)
    ensures Encode(Scalar(s)) == s[..SequenceLength(s)]
  {
    match SequenceLength(s)
    case 1 =>
    case 2 => Base64Digits(s[0] as int - 0xC0, s[1] as int - 0x80);
    case 3 => ThreeDigits(s[0] as int - 0xE0, s[1] as int - 0x80, s[2] as int - 0x80);
    case _ => FourDigits(s[0] as int - 0xF0, s[1] as int - 0x80, s[2] as int - 0x80, s[3] as int - 0x80);
  }

  /** Every character but the surrogates decodes from its encoding, whatever follows. */
  lemma EncodedIsWellFormed(c: int, after: Bytes)
    requires 0 <= c < 0x11_0000 && !(0xD800 <= c < 0xE000)
    ensures SequenceLength(Encode(c) + after) == |Encode(c)|
  {
    assert c / 0x40 % 0x40 == c / 0x40 - c / 0x1000 * 0x40;
    assert c >= 0x1_0000 ==> c / 0x1000 % 0x40 == c / 0x1000 - c / 0x4_0000 * 0x40;
  }

  /** An ASCII character occurs in the decoded text exactly when its byte occurs. */
  lemma {:induction false} AsciiSurvivesDecoding(s: Bytes, c: int)
    requires DecodeUtf8(s).Some? && 0 <= c < 0x80
    ensures c in DecodeUtf8(s).value <==> c in s
    decreases |s|
  {
    if s != [] {
      var n := SequenceLength(s);
      OneSequence(s, c);
      AsciiSurvivesDecoding(s[n..], c);
      assert s == s[..n] + s[n..];
    }
  }

  // ---------------------------------------------------------------------------------------
  // CSV
  // ---------------------------------------------------------------------------------------

  const HEAD: nat := 8192
  const COMMA: Byte := 0x2C
  const TAB: Byte := 0x09
  const SEMICOLON: Byte := 0x3B

  function Head(file: Bytes): Bytes {
    if |file| > HEAD then file[..HEAD] else file
  }

  /** UTF-8 if the head decodes, otherwise Latin-1, which maps every byte to itself. */
  function Text(head: Bytes): seq<int> {
    var utf8 := DecodeUtf8(head);
    if utf8.Some? then utf8.value else seq(|head|, i requires 0 <= i < |head| => head[i])
  }

  /** No NUL byte, and a delimiter in the decoded text. */
  predicate LooksLikeCsv(file: Bytes) {
    var head := Head(file);
    0 !in head && (var text := Text(head); COMMA in text || TAB in text || SEMICOLON in text)
  }

  lemma TextKeepsAscii(head: Bytes, c: Byte)
    requires c < 0x80
    ensures c in Text(head) <==> c in head
  {
    if DecodeUtf8(head).Some? {
      AsciiSurvivesDecoding(head, c);
    } else {
      assert forall i :: 0 <= i < |head| ==> Text(head)[i] == head[i];
    }
  }

  /** The CSV test is a plain byte test on the first 8192 bytes: which decoding is taken, and a
      character cut in two at the end of the head, make no difference. */
  lemma CsvIsAByteTest(file: Bytes)
    ensures LooksLikeCsv(file) <==>
      var head := if |file| <= 8192 then file else file[..8192];
      0 !in head && (0x2C in head || 0x09 in head || 0x3B in head)
  {
    TextKeepsAscii(Head(file), COMMA);
    TextKeepsAscii(Head(file), TAB);
    TextKeepsAscii(Head(file), SEMICOLON);
  }

  // ---------------------------------------------------------------------------------------
  // The gates
  // ---------------------------------------------------------------------------------------

  const MAX_FILE_SIZE_BYTES: nat := 50 * 1024 * 1024

  const CSV_TYPES: seq<string> := ["text/csv", "application/csv", "application/vnd.ms-excel"]

  const PDF_MAGIC: Bytes := [0x25, 0x50, 0x44, 0x46]
  const PNG_MAGIC: Bytes := [0x89, 0x50, 0x4E, 0x47]
  const JPEG_MAGIC: Bytes := [0xFF, 0xD8, 0xFF]
  const TIFF_LITTLE_MAGIC: Bytes := [0x49, 0x49, 0x2A, 0x00]
  const TIFF_BIG_MAGIC: Bytes := [0x4D, 0x4D, 0x00, 0x2A]

  /** document_service._MAGIC_BYTES: scanned in order, first hit wins. */
  const MAGIC_BYTES: seq<(Bytes, string)> := [
    (PDF_MAGIC, "application/pdf"), (PNG_MAGIC, "image/png"), (JPEG_MAGIC, "image/jpeg"),
    (TIFF_LITTLE_MAGIC, "image/tiff"), (TIFF_BIG_MAGIC, "image/tiff")]

  datatype GateError = TooLarge | NotAllowed | NotCsv | UnknownContent | Mismatch

  /** virus_scan._MAGIC: the prefixes accepted for a type, none for an unsupported type. */
  function Prefixes(mime: string): seq<Bytes> {
    if mime == "application/pdf" then [PDF_MAGIC]
    else if mime == "image/png" then [PNG_MAGIC]
    else if mime == "image/jpeg" then [JPEG_MAGIC]
    else if mime == "image/tiff" then [TIFF_LITTLE_MAGIC, TIFF_BIG_MAGIC]
    else []
  }

  /** The whitelist of document_service. */
  const ALLOWED_MIME_TYPES: seq<string> := [
    "application/pdf", "image/png", "image/jpeg", "image/tiff",
    "text/csv", "application/csv", "application/vnd.ms-excel"]

  /** The whitelist holds exactly the types the other gate knows. */
  lemma WhitelistsAgree(mime: string)
    ensures mime in ALLOWED_MIME_TYPES <==> mime in CSV_TYPES || Prefixes(mime) != []
  {
    assert CSV_TYPES == ALLOWED_MIME_TYPES[4..];
    assert ALLOWED_MIME_TYPES == ALLOWED_MIME_TYPES[..4] + CSV_TYPES;
    assert ALLOWED_MIME_TYPES[..4] == ["application/pdf", "image/png", "image/jpeg", "image/tiff"];
    assert Prefixes(mime) != [] <==> mime in ALLOWED_MIME_TYPES[..4];
  }

  /** virus_scan.validate_mime. */
  function ValidateMime(file: Bytes, declared: string): Result<(), GateError> {
    if declared in CSV_TYPES then if LooksLikeCsv(file) then Ok(()) else Err(NotCsv)
    else if Prefixes(declared) == [] then Err(NotAllowed)
    else if exists p :: p in Prefixes(declared) && p <= file then Ok(())
    else Err(Mismatch)
  }

  lemma MagicsAreDisjoint(file: Bytes, i: nat, j: nat)
    requires i < |MAGIC_BYTES| && j < |MAGIC_BYTES|
    requires MAGIC_BYTES[i].0 <= file && MAGIC_BYTES[j].0 <= file
    ensures i == j
  {
    assert MAGIC_BYTES[i].0[0] == file[0] == MAGIC_BYTES[j].0[0];
  }

  lemma PrefixesComeFromTheTable(mime: string, p: Bytes)
    ensures p in Prefixes(mime) <==> exists i :: 0 <= i < |MAGIC_BYTES| && MAGIC_BYTES[i] == (p, mime)
  {
    assert MAGIC_BYTES[0] == (PDF_MAGIC, "application/pdf");
    assert MAGIC_BYTES[1] == (PNG_MAGIC, "image/png");
    assert MAGIC_BYTES[2] == (JPEG_MAGIC, "image/jpeg");
    assert MAGIC_BYTES[3] == (TIFF_LITTLE_MAGIC, "image/tiff");
    assert MAGIC_BYTES[4] == (TIFF_BIG_MAGIC, "image/tiff");
  }

  /** What the scanner's gate accepts, type by type. */
  lemma AcceptedContents(file: Bytes)
    ensures ValidateMime(file, "application/pdf").Ok? <==> [0x25, 0x50, 0x44, 0x46] <= file
    ensures ValidateMime(file, "image/png").Ok? <==> [0x89, 0x50, 0x4E, 0x47] <= file
    ensures ValidateMime(file, "image/jpeg").Ok? <==> [0xFF, 0xD8, 0xFF] <= file
    ensures ValidateMime(file, "image/tiff").Ok? <==>
      [0x49, 0x49, 0x2A, 0x00] <= file || [0x4D, 0x4D, 0x00, 0x2A] <= file
    ensures ValidateMime(file, "text/csv").Ok? <==> LooksLikeCsv(file)
    ensures ValidateMime(file, "application/csv").Ok? <==> LooksLikeCsv(file)
    ensures ValidateMime(file, "application/vnd.ms-excel").Ok? <==> LooksLikeCsv(file)
  {
    assert PDF_MAGIC in Prefixes("application/pdf") && PNG_MAGIC in Prefixes("image/png");
    assert JPEG_MAGIC in Prefixes("image/jpeg");
    assert TIFF_LITTLE_MAGIC in Prefixes("image/tiff") && TIFF_BIG_MAGIC in Prefixes("image/tiff");
    assert CSV_TYPES[0] == "text/csv" && CSV_TYPES[1] == "application/csv";
    assert CSV_TYPES[2] == "application/vnd.ms-excel";
  }

  /** document_service.validate_file accepts exactly the files up to 50 MB that validate_mime accepts. */
  method ValidateFile(file: Bytes, declared: string) returns (r: Result<string, GateError>)
    ensures r.Ok? <==> |file| <= 52_428_800 && ValidateMime(file, declared).Ok?
    ensures r.Ok? ==> r.value == if declared in CSV_TYPES then "text/csv" else declared
  {
    if |file| > MAX_FILE_SIZE_BYTES {
      return Err(TooLarge);
    }
    WhitelistsAgree(declared);
    if declared !in ALLOWED_MIME_TYPES {
      return Err(NotAllowed);
    }
    if declared in CSV_TYPES {
      if LooksLikeCsv(file) {
        return Ok("text/csv");
      }
      return Err(NotCsv);
    }
    var n := 0;
    while n < |MAGIC_BYTES| && !(MAGIC_BYTES[n].0 <= file)
      invariant 0 <= n <= |MAGIC_BYTES|
      invariant forall i :: 0 <= i < n ==> !(MAGIC_BYTES[i].0 <= file)
    {
      n := n + 1;
    }
    forall p
      ensures p in Prefixes(declared) <==> exists i :: 0 <= i < |MAGIC_BYTES| && MAGIC_BYTES[i] == (p, declared)
    {
      PrefixesComeFromTheTable(declared, p);
    }
    if n == |MAGIC_BYTES| {
      return Err(UnknownContent);
    }
    forall i | 0 <= i < |MAGIC_BYTES| && MAGIC_BYTES[i].0 <= file
      ensures i == n
    {
      MagicsAreDisjoint(file, i, n);
    }
    if MAGIC_BYTES[n].1 != declared {
      return Err(Mismatch);
    }
    assert MAGIC_BYTES[n] == (MAGIC_BYTES[n].0, declared);
    return Ok(MAGIC_BYTES[n].1);
  }
}
