/** The client's string and file helpers. */
module FrontendUtils {
  import opened Wrappers
  import ApiUtils
  import R2

  const MsgBadType: string := "Only JPEG, PNG, WebP, and GIF files are allowed"
  const MsgBadSize: string := "File size must be less than 5MB"

  /** `{ valid, error? }` */
  datatype FileCheck = FileCheck(valid: bool, error: Option<string>)

  /** `validateImageFile`: the type check first, then the size check. */
  function ValidateImageFile(file: R2.File): (c: FileCheck)
    ensures c.valid <==> c.error.None?
    ensures !ApiUtils.IsValidImageType(file.mimeType) ==> c.error == Some(MsgBadType)
    ensures ApiUtils.IsValidImageType(file.mimeType) && file.size > R2.MaxSize ==> c.error == Some(MsgBadSize)
    ensures c.valid <==> ApiUtils.IsValidImageType(file.mimeType) && file.size <= R2.MaxSize
  {
    var validTypes := ["image/jpeg", "image/png", "image/webp", "image/gif"];
    var maxSize := 5 * 1024 * 1024;
    if file.mimeType !in validTypes then FileCheck(false, Some(MsgBadType))
    else if file.size > maxSize then FileCheck(false, Some(MsgBadSize))
    else FileCheck(true, None)
  }

  /** The client accepts exactly the files the server's upload accepts. */
  lemma ClientMatchesServer(file: R2.File, folder: string, nano: string)
    ensures ValidateImageFile(file).valid <==> R2.PrepareUpload(file, folder, nano).Ok?
  {
  }

  /** JavaScript `s.slice(0, end)`; a negative end counts from the back. */
  function SliceTo(s: string, end: int): (r: string)
    ensures 0 <= end <= |s| ==> r == s[..end]
    ensures end >= |s| ==> r == s
    ensures end < 0 ==> |r| == if |s| + end < 0 then 0 else |s| + end
    ensures end < 0 ==> r == s[..if |s| + end < 0 then 0 else |s| + end]
    ensures |r| <= |s| && r == s[..|r|]
  {
    if end >= |s| then s
    else if end >= 0 then s[..end]
    else if |s| + end > 0 then s[..|s| + end]
    else []
  }

  /** `truncate(str, length)` (the caller's default length is 100). */
  function Truncate(s: string, length: int): (r: string)
    ensures |s| <= length ==> r == s
    ensures 0 <= length < |s| ==> r == s[..length] + "..." && |r| == length + 3
    ensures |s| > length ==> |r| >= 3 && r[|r| - 3..] == "..."
    ensures length < 0 ==> r == s[..if |s| + length < 0 then 0 else |s| + length] + "..."
  {
    if |s| <= length then s
    else
      var head := SliceTo(s, length);
      assert (head + "...")[|head|..] == "...";
      head + "..."
  }

  /** `toUpperCase` on the ASCII letters; every other character is left as it is. */
  function ToUpper(c: char): char {
    if 'a' <= c <= 'z' then (c as int - 'a' as int + 'A' as int) as char else c
  }

  /** `capitalize`: the first character upper-cased, the rest unchanged. */
  function Capitalize(s: string): (r: string)
    ensures |r| == |s|
    ensures s != [] ==> r[0] == ToUpper(s[0]) && r[1..] == s[1..]
    ensures s == [] ==> r == []
  {
    if s == [] then [] else [ToUpper(s[0])] + s[1..]
  }

  /** Capitalizing twice is capitalizing once. */
  lemma CapitalizeIdempotent(s: string)
    ensures Capitalize(Capitalize(s)) == Capitalize(s)
  {
  }
}
