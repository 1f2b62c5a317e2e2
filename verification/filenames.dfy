/** `clean_filename` (main.py): the export file name of a dashboard. */
module Filenames {

  /** The characters the regular expression `[<>:"/\\|?*]` matches. */
  const Forbidden: set<char> := {'<', '>', ':', '"', '/', '\\', '|', '?', '*'}

  const MaxLength: nat := 50

  /** `re.sub(r'[<>:"/\\|?*]', '_', s)`: every forbidden character becomes `_`. */
  function ReplaceForbidden(s: string): (r: string)
    ensures |r| == |s|
    ensures forall i :: 0 <= i < |s| ==> r[i] == (if s[i] in Forbidden then '_' else s[i])
  {
    if |s| == 0 then []
    else [if s[0] in Forbidden then '_' else s[0]] + ReplaceForbidden(s[1..])
  }

  /** `clean_filename`: replace, then keep the first 50 characters. */
  function CleanFilename(name: string): (r: string)
    ensures |r| <= MaxLength
    ensures |r| == if |name| < MaxLength then |name| else MaxLength
    ensures forall i :: 0 <= i < |r| ==> r[i] !in Forbidden
    ensures forall i :: 0 <= i < |r| ==> r[i] == (if name[i] in Forbidden then '_' else name[i])
  {
    var replaced := ReplaceForbidden(name);
    if |replaced| <= MaxLength then replaced else replaced[..MaxLength]
  }

  /** Cleaning a cleaned name changes nothing. */
  lemma CleanFilenameIdempotent(name: string)
    ensures CleanFilename(CleanFilename(name)) == CleanFilename(name)
  {
    var once := CleanFilename(name);
    var twice := CleanFilename(once);
    assert |twice| == |once|;
    forall i | 0 <= i < |once| ensures twice[i] == once[i] {
      assert once[i] !in Forbidden;
    }
  }

  /** A name that is short and free of forbidden characters is kept as is. */
  lemma CleanFilenameKeepsSafeNames(name: string)
    requires |name| <= MaxLength
    requires forall i :: 0 <= i < |name| ==> name[i] !in Forbidden
    ensures CleanFilename(name) == name
  {
  }
}
