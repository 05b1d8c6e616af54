/** The WhatsApp-origin classifier: an asset comes from WhatsApp when one of
    a list of indicator substrings occurs in its lower-cased path and file
    name. */
module Classifier {
  import opened Wrappers
  import opened Assets

  /** The indicators the cleaner uses. */
  const WhatsAppIndicators: seq<string> := ["whatsapp", "/sent/"]

  /** The broader indicator set that the source keeps commented out: it also
      matches WhatsApp's `-WA0` file-name suffix and the generic `IMG-` prefix. */
  const BroaderIndicators: seq<string> := ["whatsapp", "wa0", "/sent/", "img-", "-wa0"]

  /** ASCII lower-casing of one character. */
  function LowerChar(c: char): char {
    if 'A' <= c <= 'Z' then (c as int - 'A' as int + 'a' as int) as char else c
  }

  /** `str.lower()`, restricted to ASCII letters. */
  function Lower(s: string): (r: string)
    ensures |r| == |s|
  {
    if s == [] then [] else [LowerChar(s[0])] + Lower(s[1..])
  }

  /** Lower-casing works character by character and leaves no upper-case
      ASCII letter behind. */
  lemma {:induction false} LowerAt(s: string)
    ensures forall i :: 0 <= i < |s| ==> Lower(s)[i] == LowerChar(s[i])
    ensures forall i :: 0 <= i < |s| ==> !('A' <= Lower(s)[i] <= 'Z')
  {
    if s != [] {
      LowerAt(s[1..]);
    }
  }

  lemma LowerIdempotent(s: string)
    ensures Lower(Lower(s)) == Lower(s)
  {
    LowerAt(s);
    LowerAt(Lower(s));
  }

  lemma LowerAppend(a: string, b: string)
    ensures Lower(a + b) == Lower(a) + Lower(b)
  {
    LowerAt(a);
    LowerAt(b);
    LowerAt(a + b);
  }

  /** `needle` occurs in `haystack` starting at position `i`. */
  predicate OccursAt(haystack: string, needle: string, i: int) {
    0 <= i && i + |needle| <= |haystack| && haystack[i..i + |needle|] == needle
  }

  /** Python's `needle in haystack` on strings: try each starting position
      from the left. */
  predicate Contains(haystack: string, needle: string)
    ensures Contains(haystack, needle) ==> |needle| <= |haystack|
    ensures Contains(haystack, needle) ==> forall c :: c in needle ==> c in haystack
    decreases |haystack|
  {
    |needle| <= |haystack| &&
    (haystack[..|needle|] == needle || Contains(haystack[1..], needle))
  }

  /** The search agrees with the positional definition of a substring. */
  lemma {:induction false} ContainsIffOccurs(haystack: string, needle: string)
    ensures Contains(haystack, needle) <==> exists i :: OccursAt(haystack, needle, i)
    decreases |haystack|
  {
    if Contains(haystack, needle) {
      if haystack[..|needle|] == needle {
        assert OccursAt(haystack, needle, 0);
      } else {
        ContainsIffOccurs(haystack[1..], needle);
        var i :| OccursAt(haystack[1..], needle, i);
        assert haystack[1..][i..i + |needle|] == haystack[i + 1..i + 1 + |needle|];
        assert OccursAt(haystack, needle, i + 1);
      }
    }
    if exists i :: OccursAt(haystack, needle, i) {
      var i :| OccursAt(haystack, needle, i);
      if i > 0 {
        assert haystack[1..][i - 1..i - 1 + |needle|] == haystack[i..i + |needle|];
        assert OccursAt(haystack[1..], needle, i - 1);
        ContainsIffOccurs(haystack[1..], needle);
      }
    }
  }

  /** The lower-cased path, a space and the lower-cased file name. */
  function Joined(a: Asset): string {
    Lower(a.originalPath.GetOr("")) + " " + Lower(a.originalFileName.GetOr(""))
  }

  /** The string the indicators are searched in: lower-cased path and file
      name (each `""` when missing) joined by one space, lower-cased again,
      which changes nothing more. */
  function ScanString(a: Asset): (scan: string)
    ensures scan == Joined(a)
  {
    var path, name := a.originalPath.GetOr(""), a.originalFileName.GetOr("");
    LowerAppend(Lower(path) + " ", Lower(name));
    LowerAppend(Lower(path), " ");
    LowerIdempotent(path);
    LowerIdempotent(name);
    Lower(Lower(path) + " " + Lower(name))
  }

  /** `is_whatsapp_asset`, with the indicator list as a parameter. */
  predicate IsWhatsAppAsset(a: Asset, indicators: seq<string>) {
    exists k :: 0 <= k < |indicators| && Contains(ScanString(a), indicators[k])
  }

  /** With the cleaner's indicators, an asset is from WhatsApp exactly when
      "whatsapp" or "/sent/" occurs in its lower-cased path, a space and its
      lower-cased file name. */
  lemma WhatsAppIffIndicatorOccurs(a: Asset)
    ensures IsWhatsAppAsset(a, WhatsAppIndicators) <==>
      (exists i :: OccursAt(Joined(a), "whatsapp", i)) || (exists i :: OccursAt(Joined(a), "/sent/", i))
  {
    var scan := ScanString(a);
    ContainsIffOccurs(scan, "whatsapp");
    ContainsIffOccurs(scan, "/sent/");
    assert WhatsAppIndicators[0] == "whatsapp" && WhatsAppIndicators[1] == "/sent/";
    assert IsWhatsAppAsset(a, WhatsAppIndicators) <==> Contains(scan, "whatsapp") || Contains(scan, "/sent/");
  }

  /** An asset with neither a path nor a file name has the scan string " ",
      so it is classified by whether some indicator is "" or " "; with the
      cleaner's indicators it is not from WhatsApp. */
  lemma MissingFieldsClassification(a: Asset, indicators: seq<string>)
    requires a.originalPath.None? && a.originalFileName.None?
    ensures IsWhatsAppAsset(a, indicators) <==>
      exists k :: 0 <= k < |indicators| && (indicators[k] == "" || indicators[k] == " ")
    ensures !IsWhatsAppAsset(a, WhatsAppIndicators)
  {
    assert ScanString(a) == " ";
    forall k | 0 <= k < |indicators|
      ensures Contains(" ", indicators[k]) <==> (indicators[k] == "" || indicators[k] == " ")
    {
      var n := indicators[k];
      if |n| == 1 {
        assert Contains(" ", n) <==> " "[..1] == n;
      }
    }
    assert !Contains(" ", "whatsapp") && !Contains(" ", "/sent/");
    assert forall k :: 0 <= k < |WhatsAppIndicators| ==>
      WhatsAppIndicators[k] == "whatsapp" || WhatsAppIndicators[k] == "/sent/";
  }

  /** Classification ignores the case of the path and the file name. */
  lemma ClassificationIgnoresCase(a: Asset, b: Asset, indicators: seq<string>)
    requires Lower(a.originalPath.GetOr("")) == Lower(b.originalPath.GetOr(""))
    requires Lower(a.originalFileName.GetOr("")) == Lower(b.originalFileName.GetOr(""))
    ensures IsWhatsAppAsset(a, indicators) <==> IsWhatsAppAsset(b, indicators)
  {
  }
  /** A lower-case letter absent from `s` in both cases is absent from `Lower(s)`. */
  lemma LowerKeepsAbsent(s: string, c: char)
    requires 'a' <= c <= 'z'
    requires c !in s && (c as int - 'a' as int + 'A' as int) as char !in s
    ensures c !in Lower(s)
  {
    LowerAt(s);
    forall i | 0 <= i < |s| ensures Lower(s)[i] != c {
      assert s[i] in s;
    }
  }

  /** A path with a piece that lower-cases to an indicator is from WhatsApp,
      whatever the rest of the path and the file name are. */
  lemma IndicatorInPathMatches(a: Asset, indicators: seq<string>, k: nat,
                               before: string, piece: string, after: string)
    requires a.originalPath == Some(before + piece + after)
    requires k < |indicators| && Lower(piece) == indicators[k]
    ensures IsWhatsAppAsset(a, indicators)
  {
    LowerAppend(before + piece, after);
    LowerAppend(before, piece);
    var rest := Lower(after) + " " + Lower(a.originalFileName.GetOr(""));
    var scan := ScanString(a);
    assert scan == Lower(before) + Lower(piece) + rest;
    assert scan[|before|..|before| + |piece|] == Lower(piece);
    assert OccursAt(scan, Lower(piece), |before|);
    ContainsIffOccurs(scan, Lower(piece));
  }

  lemma LowerOfWhatsApp()
    ensures Lower("WhatsApp") == "whatsapp"
  {
    LowerAt("WhatsApp");
  }

  /** "/albums/WhatsApp Images/img1.jpg", written in the pieces the example
      below splits it into. */
  const WhatsAppImagesPath := "/albums/" + "WhatsApp" + " Images/img1.jpg"

  /** A path in a "WhatsApp Images" folder is from WhatsApp. */
  lemma WhatsAppImagesFolderExample(a: Asset)
    requires a.originalPath == Some(WhatsAppImagesPath)
    ensures IsWhatsAppAsset(a, WhatsAppIndicators)
  {
    LowerOfWhatsApp();
    IndicatorInPathMatches(a, WhatsAppIndicators, 0, "/albums/", "WhatsApp", " Images/img1.jpg");
  }

  /** An asset whose path and file name hold neither a 'w' nor an 'n', in
      either case, is not from WhatsApp with the cleaner's indicators. */
  lemma NoIndicatorLettersNotWhatsApp(a: Asset)
    requires 'w' !in a.originalPath.GetOr("") && 'W' !in a.originalPath.GetOr("")
    requires 'w' !in a.originalFileName.GetOr("") && 'W' !in a.originalFileName.GetOr("")
    requires 'n' !in a.originalPath.GetOr("") && 'N' !in a.originalPath.GetOr("")
    requires 'n' !in a.originalFileName.GetOr("") && 'N' !in a.originalFileName.GetOr("")
    ensures !IsWhatsAppAsset(a, WhatsAppIndicators)
  {
    var path, name := a.originalPath.GetOr(""), a.originalFileName.GetOr("");
    var scan := ScanString(a);
    LowerKeepsAbsent(path, 'w');
    LowerKeepsAbsent(name, 'w');
    LowerKeepsAbsent(path, 'n');
    LowerKeepsAbsent(name, 'n');
    assert 'w' !in scan && 'n' !in scan;
    assert 'w' in "whatsapp" && 'n' in "/sent/";
    assert forall k :: 0 <= k < |WhatsAppIndicators| ==>
      WhatsAppIndicators[k] == "whatsapp" || WhatsAppIndicators[k] == "/sent/";
  }

  /** "/albums/Camera/IMG-20230101.jpg", the camera-export path of the two
      examples below, written in the pieces the second one splits it into. */
  const CameraPath := "/albums/Camera/" + "IMG-" + "20230101.jpg"

  lemma CameraPathLacksW()
    ensures 'w' !in CameraPath && 'W' !in CameraPath
  {}

  lemma CameraPathLacksN()
    ensures 'n' !in CameraPath && 'N' !in CameraPath
  {}

  /** "IMG-20230101.jpg", the camera export's file name. */
  const CameraFileName := "IMG-" + "20230101.jpg"

  lemma CameraFileNameLacksIndicatorLetters()
    ensures 'w' !in CameraFileName && 'W' !in CameraFileName
    ensures 'n' !in CameraFileName && 'N' !in CameraFileName
  {}

  /** A camera export named `IMG-...` is not from WhatsApp with the cleaner's
      indicators ... */
  lemma CameraExportIsNotWhatsApp(b: Asset)
    requires b.originalPath == Some(CameraPath) && b.originalFileName == Some(CameraFileName)
    ensures !IsWhatsAppAsset(b, WhatsAppIndicators)
  {
    CameraPathLacksW();
    CameraPathLacksN();
    CameraFileNameLacksIndicatorLetters();
    NoIndicatorLettersNotWhatsApp(b);
  }

  /** ... but it is with the broader set, whose "img-" matches it. */
  lemma CameraExportMatchesBroaderSet(b: Asset)
    requires b.originalPath == Some(CameraPath)
    ensures IsWhatsAppAsset(b, BroaderIndicators)
  {
    LowerAt("IMG-");
    IndicatorInPathMatches(b, BroaderIndicators, 3, "/albums/Camera/", "IMG-", "20230101.jpg");
  }
}
