/**
 * The error messages the stereo scripts record when a conversion or an upload
 * fails for at least one view. Python formats each flag as `True` or `False`;
 * every message names all three flags, and `ParseFlags` reads them back.
 */
module Messages {
  import opened Wrappers
  import opened Text
  import opened Remote

  const ConvertPrefix: string := "Error: Failure to Convert SVO -- "
  const UploadPrefix: string := "Error: Failure to Upload MP4 -- "

  /** Python's `str(b)` for a bool. */
  function Flag(b: bool): string
  {
    if b then "True" else "False"
  }

  /** `(Left: {l}, Right: {r}, Wrist: {w})!` */
  function FlagsText(v: Views): string
  {
    Field("(Left: ", v.left) + Field(", Right: ", v.right) + Field(", Wrist: ", v.wrist) + ")!"
  }

  /** One named flag of a message, such as `Left: True`. */
  function Field(tag: string, b: bool): string
  {
    tag + Flag(b)
  }

  /** Message recorded when an SVO to MP4 export fails for some view. */
  function ConvertMessage(v: Views): string
  {
    ConvertPrefix + FlagsText(v)
  }

  /** Message recorded when an upload of a stereo MP4 fails for some view. */
  function UploadMessage(v: Views): string
  {
    UploadPrefix + FlagsText(v)
  }

  /** Message recorded for a caught exception: `f"Error: {e}"`. */
  function ExceptionMessage(e: string): string
  {
    "Error: " + e
  }

  /** The text after `lit`, when `s` starts with it. */
  function Expect(s: string, lit: string): Option<string>
  {
    if StartsWith(s, lit) then Some(s[|lit|..]) else None
  }

  /** Reads `True` or `False` at the start of `s`, and returns the flag with the rest of the text. */
  function ParseFlag(s: string): Option<(bool, string)>
  {
    if StartsWith(s, "True") then Some((true, s[4..]))
    else if StartsWith(s, "False") then Some((false, s[5..]))
    else None
  }

  /** Reads `tag` followed by a flag at the start of `s`. */
  function ParseField(s: string, tag: string): Option<(bool, string)>
  {
    match Expect(s, tag)
    case None => None
    case Some(t) => ParseFlag(t)
  }

  /** Reads the three flags back from the text `FlagsText` writes. */
  function ParseFlags(s: string): Option<Views>
  {
    match ParseField(s, "(Left: ")
    case None => None
    case Some((l, s1)) =>
      match ParseField(s1, ", Right: ")
      case None => None
      case Some((r, s2)) =>
        match ParseField(s2, ", Wrist: ")
        case None => None
        case Some((w, s3)) => if s3 == ")!" then Some(Views(l, r, w)) else None
  }

  lemma ExpectLiteral(lit: string, rest: string)
    ensures Expect(lit + rest, lit) == Some(rest)
  {
    assert (lit + rest)[..|lit|] == lit;
    assert (lit + rest)[|lit|..] == rest;
  }

  lemma ParseFlagOf(b: bool, rest: string)
    ensures ParseFlag(Flag(b) + rest) == Some((b, rest))
  {
    var s := Flag(b) + rest;
    if b {
      ExpectLiteral("True", rest);
    } else {
      assert s[1] == 'a';
      assert !StartsWith(s, "True") by {
        if |s| >= 4 {
          assert s[..4][1] != "True"[1];
        }
      }
      ExpectLiteral("False", rest);
    }
  }

  lemma ParseFieldOf(tag: string, b: bool, rest: string)
    ensures ParseField(Field(tag, b) + rest, tag) == Some((b, rest))
  {
    assert Field(tag, b) + rest == tag + (Flag(b) + rest);
    ExpectLiteral(tag, Flag(b) + rest);
    ParseFlagOf(b, rest);
  }

  lemma FlagsTextFields(v: Views)
    ensures FlagsText(v) == Field("(Left: ", v.left) + (Field(", Right: ", v.right) + (Field(", Wrist: ", v.wrist) + ")!"))
  {
  }

  lemma ParseFlagsOfFields(l: bool, r: bool, w: bool)
    ensures ParseFlags(Field("(Left: ", l) + (Field(", Right: ", r) + (Field(", Wrist: ", w) + ")!"))) == Some(Views(l, r, w))
  {
    var tail2 := Field(", Wrist: ", w) + ")!";
    var tail1 := Field(", Right: ", r) + tail2;
    ParseFieldOf("(Left: ", l, tail1);
    ParseFieldOf(", Right: ", r, tail2);
    ParseFieldOf(", Wrist: ", w, ")!");
  }

  /** The three flags can be read back from the message text: the text determines which views failed. */
  lemma FlagsRoundTrip(v: Views)
    ensures ParseFlags(FlagsText(v)) == Some(v)
  {
    FlagsTextFields(v);
    ParseFlagsOfFields(v.left, v.right, v.wrist);
  }

  /** The flags of a conversion or upload message are read back from the text after its prefix. */
  lemma MessageFlagsReadBack(v: Views)
    ensures |ConvertPrefix| <= |ConvertMessage(v)| && ParseFlags(ConvertMessage(v)[|ConvertPrefix|..]) == Some(v)
    ensures |UploadPrefix| <= |UploadMessage(v)| && ParseFlags(UploadMessage(v)[|UploadPrefix|..]) == Some(v)
  {
    FlagsRoundTrip(v);
    ExpectLiteral(ConvertPrefix, FlagsText(v));
    ExpectLiteral(UploadPrefix, FlagsText(v));
  }

  /** Two conversion messages are equal only for equal flags, and likewise two upload messages. */
  lemma MessagesDetermineFlags(v: Views, w: Views)
    ensures ConvertMessage(v) == ConvertMessage(w) ==> v == w
    ensures UploadMessage(v) == UploadMessage(w) ==> v == w
  {
    FlagsRoundTrip(v);
    FlagsRoundTrip(w);
    if ConvertMessage(v) == ConvertMessage(w) {
      ExpectLiteral(ConvertPrefix, FlagsText(v));
      ExpectLiteral(ConvertPrefix, FlagsText(w));
    }
    if UploadMessage(v) == UploadMessage(w) {
      ExpectLiteral(UploadPrefix, FlagsText(v));
      ExpectLiteral(UploadPrefix, FlagsText(w));
    }
  }

  /** A conversion failure and an upload failure are never recorded with the same message. */
  lemma ConvertAndUploadMessagesDiffer(v: Views, w: Views)
    ensures ConvertMessage(v) != UploadMessage(w)
  {
    assert ConvertMessage(v)[18] == 'C';
    assert UploadMessage(w)[18] == 'U';
  }

  /** Every recorded message starts with `Error: `. */
  lemma MessagesStartWithError(v: Views, e: string)
    ensures StartsWith(ConvertMessage(v), "Error: ")
    ensures StartsWith(UploadMessage(v), "Error: ")
    ensures StartsWith(ExceptionMessage(e), "Error: ")
  {
    ExpectLiteral("Error: ", "Failure to Convert SVO -- " + FlagsText(v));
    ExpectLiteral("Error: ", "Failure to Upload MP4 -- " + FlagsText(v));
    ExpectLiteral("Error: ", e);
  }
}
