/** The image filter of the upload middleware (`checkFileType`,
    src/utils/multerUpload.ts:25-31): a file passes when both its extension
    and its MIME type mention one of the accepted image types.

    The extension is the string `path.extname` returns for the original file
    name; the filter reports its verdict through a callback, modelled as the
    list of calls it makes. */
module Upload {

  /** `/jpeg|jpg|png/` as the error message prints it. */
  const FileTypes: string := "/jpeg|jpg|png/"

  /** The message a rejected file is reported with. */
  const RejectionMessage: string := "Error: File upload only supports the following filetypes - " + FileTypes

  /** One call of the multer callback: `cb(null, true)` or `cb(message)`. */
  datatype Callback = Accept | Reject(message: string)

  /** Lower-casing of the letters A to Z. */
  function LowerChar(c: char): char
  {
    if 'A' <= c <= 'Z' then (c as int - 'A' as int + 'a' as int) as char else c
  }

  function UpperChar(c: char): char
  {
    if 'a' <= c <= 'z' then (c as int - 'a' as int + 'A' as int) as char else c
  }

  /** `toLowerCase` on the letters A to Z. */
  function ToLower(s: string): (r: string)
    ensures |r| == |s| && forall i :: 0 <= i < |s| ==> r[i] == LowerChar(s[i])
  {
    if s == [] then [] else [LowerChar(s[0])] + ToLower(s[1..])
  }

  function ToUpper(s: string): (r: string)
    ensures |r| == |s| && forall i :: 0 <= i < |s| ==> r[i] == UpperChar(s[i])
  {
    if s == [] then [] else [UpperChar(s[0])] + ToUpper(s[1..])
  }

  /** Whether `t` occurs in `s` (an unanchored regular expression made of
      plain letters matches exactly this). */
  function Contains(s: string, t: string): bool
    decreases |s|
  {
    if |t| <= |s| && s[..|t|] == t then true
    else if s == [] then false
    else Contains(s[1..], t)
  }

  /** `t` occurs in `s` starting at position `i`. */
  predicate OccursAt(s: string, t: string, i: nat)
  {
    i + |t| <= |s| && s[i..i + |t|] == t
  }

  /** `Contains` means `t` occurs at some position of `s`. */
  lemma {:induction false} ContainsAt(s: string, t: string)
    ensures Contains(s, t) <==> exists i: nat :: OccursAt(s, t, i)
    decreases |s|
  {
    if |t| <= |s| && s[..|t|] == t {
      assert OccursAt(s, t, 0);
    } else if s != [] {
      ContainsAt(s[1..], t);
      if exists i: nat :: OccursAt(s, t, i) {
        var i: nat :| OccursAt(s, t, i);
        assert i != 0;
        assert s[1..][i - 1..i - 1 + |t|] == s[i..i + |t|];
        assert OccursAt(s[1..], t, i - 1);
      }
      if exists i: nat :: OccursAt(s[1..], t, i) {
        var i: nat :| OccursAt(s[1..], t, i);
        assert s[i + 1..i + 1 + |t|] == s[1..][i..i + |t|];
        assert OccursAt(s, t, i + 1);
      }
    } else {
      assert forall i: nat :: !OccursAt(s, t, i);
    }
  }

  /** A pattern whose first character does not occur in `s` is not found
      in `s`. */
  lemma {:induction false} MissingFirstChar(s: string, t: string)
    requires t != [] && t[0] !in s
    ensures !Contains(s, t)
  {
    forall i: nat
      ensures !OccursAt(s, t, i)
    {
      if i + |t| <= |s| {
        assert s[i..i + |t|][0] == s[i];
      }
    }
    ContainsAt(s, t);
  }

  /** A pattern found at position `i` is contained. */
  lemma FoundAt(s: string, t: string, i: nat)
    requires OccursAt(s, t, i)
    ensures Contains(s, t)
  {
    ContainsAt(s, t);
  }

  /** `filetypes.test(x)`. */
  predicate MatchesImageTypes(x: string)
  {
    Contains(x, "jpeg") || Contains(x, "jpg") || Contains(x, "png")
  }

  /** `checkFileType`: the calls made to the callback for a file with
      extension `ext` and MIME type `mimetype`. */
  function CheckFileType(ext: string, mimetype: string): (calls: seq<Callback>)
    ensures |calls| == 1
    ensures calls[0] == Accept <==> MatchesImageTypes(ToLower(ext)) && MatchesImageTypes(mimetype)
    ensures calls[0] != Accept ==> calls[0] == Reject(RejectionMessage)
  {
    if MatchesImageTypes(mimetype) && MatchesImageTypes(ToLower(ext)) then [Accept]
    else [Reject(RejectionMessage)]
  }

  /** Upper-casing first changes nothing once the text is lower-cased. */
  lemma {:induction false} LowerOfUpper(s: string)
    ensures ToLower(ToUpper(s)) == ToLower(s)
  {
    var u := ToUpper(s);
    forall i | 0 <= i < |s|
      ensures ToLower(u)[i] == ToLower(s)[i]
    {
      LowerOfUpperChar(s[i]);
    }
  }

  lemma LowerOfUpperChar(c: char)
    ensures LowerChar(UpperChar(c)) == LowerChar(c)
  {
  }

  /** The extension test ignores case: an upper-case extension gets the
      same verdict as the lower-case one. */
  lemma ExtensionIgnoresCase(ext: string, mimetype: string)
    ensures CheckFileType(ToUpper(ext), mimetype) == CheckFileType(ext, mimetype)
  {
    LowerOfUpper(ext);
  }

  /** A PNG with the usual MIME type is accepted, whether its extension is
      written `.png` or `.PNG`. */
  lemma PngAccepted()
    ensures CheckFileType(".png", "image/png") == [Accept]
    ensures CheckFileType(".PNG", "image/png") == [Accept]
  {
    PngMatches();
    assert ToLower(".png") == ".png";
    assert ToUpper(".png") == ".PNG";
    ExtensionIgnoresCase(".png", "image/png");
  }

  lemma PngMatches()
    ensures MatchesImageTypes(".png") && MatchesImageTypes("image/png")
  {
    FoundAt(".png", "png", 1);
    FoundAt("image/png", "png", 6);
  }

  /** The MIME test does not ignore case: `image/PNG` is rejected even for
      a `.png` file. */
  lemma MimeTypeIsCaseSensitive()
    ensures CheckFileType(".png", "image/PNG") == [Reject(RejectionMessage)]
  {
    NoImageTypeInMime("image/PNG");
  }

  lemma NoImageTypeInMime(mime: string)
    requires 'j' !in mime && 'p' !in mime
    ensures !MatchesImageTypes(mime)
  {
    MissingFirstChar(mime, "jpeg");
    MissingFirstChar(mime, "jpg");
    MissingFirstChar(mime, "png");
  }

  /** The rejection message names the accepted types. */
  lemma RejectionNamesTypes()
    ensures Contains(RejectionMessage, "jpeg|jpg|png")
  {
    var t := "jpeg|jpg|png";
    var prefix := "Error: File upload only supports the following filetypes - ";
    assert RejectionMessage == prefix + FileTypes;
    assert |prefix| == 59;
    assert RejectionMessage[60..72] == FileTypes[1..13] == t;
    FoundAt(RejectionMessage, t, 60);
  }
}
