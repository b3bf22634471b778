/** The file names of backend/substrapp/lock_local.py. `alnum` stands for `c.isalpha() or c.isdigit()`. */
module LockPaths {

  type CharClass = char -> bool

  /** What the file names rely on: the letters of the prefixes are kept, separators and spaces are not letters. */
  predicate Alphabet(alnum: CharClass) {
    (forall c :: c in SECONDARY_LOCK_FILE_PREFIX ==> alnum(c) || c in [' ', '.', '_']) && !alnum(' ') && !alnum('/')
  }

  function Keep(alnum: CharClass, s: string): string {
    if s == "" then ""
    else (if alnum(s[0]) || s[0] in [' ', '.', '_'] then [s[0]] else []) + Keep(alnum, s[1..])
  }

  function StripLeft(s: string): string {
    if s != "" && s[0] == ' ' then StripLeft(s[1..]) else s
  }

  function StripRight(s: string): string {
    if s != "" && s[|s| - 1] == ' ' then StripRight(s[..|s| - 1]) else s
  }

  function MakeFilenameSafe(alnum: CharClass, filename: string): string {
    StripRight(StripLeft(Keep(alnum, filename)))
  }

  const LOCK_FILE_FOLDER := "/tmp"
  const LOCK_FILE_PREFIX := "lock_"
  const SECONDARY_LOCK_FILE_PREFIX := "secondary_lock_"

  function LockFilePath(alnum: CharClass, slug: string): string {
    LOCK_FILE_FOLDER + "/" + MakeFilenameSafe(alnum, LOCK_FILE_PREFIX + slug)
  }

  function SecondaryLockFilePath(alnum: CharClass, slug: string): string {
    LOCK_FILE_FOLDER + "/" + MakeFilenameSafe(alnum, SECONDARY_LOCK_FILE_PREFIX + slug)
  }

  lemma {:induction false} KeepConcat(alnum: CharClass, a: string, b: string)
    ensures Keep(alnum, a + b) == Keep(alnum, a) + Keep(alnum, b)
    decreases |a|
  {
    if a == "" {
      assert a + b == b;
    } else {
      assert (a + b)[1..] == a[1..] + b;
      KeepConcat(alnum, a[1..], b);
    }
  }

  lemma {:induction false} KeepAll(alnum: CharClass, s: string)
    requires forall c :: c in s ==> alnum(c) || c in [' ', '.', '_']
    ensures Keep(alnum, s) == s
  {
    if s != "" {
      KeepAll(alnum, s[1..]);
    }
  }

  /** Only the spaces after the prefix are stripped. */
  lemma {:induction false} StripRightSuffix(prefix: string, s: string)
    requires prefix != "" && prefix[|prefix| - 1] != ' '
    ensures StripRight(prefix + s) == prefix + StripRight(s)
    decreases |s|
  {
    if s == "" {
      assert prefix + s == prefix;
    } else {
      assert (prefix + s)[|prefix + s| - 1] == s[|s| - 1];
      if s[|s| - 1] == ' ' {
        assert (prefix + s)[..|prefix + s| - 1] == prefix + s[..|s| - 1];
        StripRightSuffix(prefix, s[..|s| - 1]);
      }
    }
  }

  lemma SafeName(alnum: CharClass, prefix: string, slug: string)
    requires prefix != "" && prefix[0] != ' ' && prefix[|prefix| - 1] != ' '
    requires forall c :: c in prefix ==> alnum(c) || c in [' ', '.', '_']
    ensures MakeFilenameSafe(alnum, prefix + slug) == prefix + StripRight(Keep(alnum, slug))
  {
    KeepConcat(alnum, prefix, slug);
    KeepAll(alnum, prefix);
    StripRightSuffix(prefix, Keep(alnum, slug));
  }

  /** What two slugs must share to share a file. */
  function SafeSlug(alnum: CharClass, slug: string): string {
    StripRight(Keep(alnum, slug))
  }

  lemma PrefixKept(alnum: CharClass)
    requires Alphabet(alnum)
    ensures forall c :: c in LOCK_FILE_PREFIX ==> alnum(c) || c in [' ', '.', '_']
  {
  }

  lemma LockFileName(alnum: CharClass, slug: string)
    requires Alphabet(alnum)
    ensures MakeFilenameSafe(alnum, LOCK_FILE_PREFIX + slug) == LOCK_FILE_PREFIX + SafeSlug(alnum, slug)
  {
    PrefixKept(alnum);
    assert LOCK_FILE_PREFIX[0] == 'l' && LOCK_FILE_PREFIX[|LOCK_FILE_PREFIX| - 1] == '_';
    SafeName(alnum, LOCK_FILE_PREFIX, slug);
  }

  lemma SecondaryLockFileName(alnum: CharClass, slug: string)
    requires Alphabet(alnum)
    ensures MakeFilenameSafe(alnum, SECONDARY_LOCK_FILE_PREFIX + slug)
        == SECONDARY_LOCK_FILE_PREFIX + SafeSlug(alnum, slug)
  {
    assert SECONDARY_LOCK_FILE_PREFIX[0] == 's' && SECONDARY_LOCK_FILE_PREFIX[|SECONDARY_LOCK_FILE_PREFIX| - 1] == '_';
    SafeName(alnum, SECONDARY_LOCK_FILE_PREFIX, slug);
  }

  /** A lock file is never a secondary lock file, and two resources share their lock file exactly when they
      share their secondary lock file: the two levels always guard the same thing. */
  lemma PathsPair(alnum: CharClass, a: string, b: string)
    requires Alphabet(alnum)
    ensures LockFilePath(alnum, a) != SecondaryLockFilePath(alnum, b)
    ensures LockFilePath(alnum, a) == LockFilePath(alnum, b) <==>
        SecondaryLockFilePath(alnum, a) == SecondaryLockFilePath(alnum, b)
  {
    hide MakeFilenameSafe, Alphabet;
    LockFileName(alnum, a);
    LockFileName(alnum, b);
    SecondaryLockFileName(alnum, a);
    SecondaryLockFileName(alnum, b);
    var x, y := SafeSlug(alnum, a), SafeSlug(alnum, b);
    var folder := LOCK_FILE_FOLDER + "/";
    assert (LOCK_FILE_PREFIX + x)[0] == 'l' && (SECONDARY_LOCK_FILE_PREFIX + y)[0] == 's';
    SamePrefix(folder, LOCK_FILE_PREFIX + x, SECONDARY_LOCK_FILE_PREFIX + y);
    SamePrefix(folder, LOCK_FILE_PREFIX + x, LOCK_FILE_PREFIX + y);
    SamePrefix(folder, SECONDARY_LOCK_FILE_PREFIX + x, SECONDARY_LOCK_FILE_PREFIX + y);
    SamePrefix(LOCK_FILE_PREFIX, x, y);
    SamePrefix(SECONDARY_LOCK_FILE_PREFIX, x, y);
  }

  lemma SamePrefix(prefix: string, x: string, y: string)
    ensures prefix + x == prefix + y <==> x == y
  {
    assert (prefix + x)[|prefix|..] == x;
    assert (prefix + y)[|prefix|..] == y;
  }

  lemma {:induction false} KeptCharacters(alnum: CharClass, s: string, c: char)
    ensures c in Keep(alnum, s) ==> alnum(c) || c in [' ', '.', '_']
  {
    if s != "" {
      KeptCharacters(alnum, s[1..], c);
    }
  }

  lemma {:induction false} StripKeepsNothingNew(s: string, c: char)
    ensures c in StripRight(s) ==> c in s
    decreases |s|
  {
    if s != "" && s[|s| - 1] == ' ' {
      StripKeepsNothingNew(s[..|s| - 1], c);
    }
  }

  /** No slug escapes the folder: the part of the path that depends on it holds no separator. */
  lemma SlugStaysInFolder(alnum: CharClass, slug: string)
    requires Alphabet(alnum)
    ensures '/' !in SafeSlug(alnum, slug)
  {
    KeptCharacters(alnum, slug, '/');
    StripKeepsNothingNew(Keep(alnum, slug), '/');
  }

  /* ---------- which resources share a file ---------- */

  predicate Kept(alnum: CharClass, c: char) {
    alnum(c) || c == ' ' || c == '.' || c == '_'
  }

  lemma {:induction false} NoTrailingSpace(s: string)
    requires s == "" || s[|s| - 1] != ' '
    ensures StripRight(s) == s
  {
  }

  lemma Assoc(a: string, b: string, c: string)
    ensures a + (b + c) == a + b + c
  {
  }

  lemma PathOf(alnum: CharClass, slug: string)
    requires Alphabet(alnum)
    ensures LockFilePath(alnum, slug) == "/tmp/lock_" + SafeSlug(alnum, slug)
    ensures SecondaryLockFilePath(alnum, slug) == "/tmp/secondary_lock_" + SafeSlug(alnum, slug)
  {
    hide MakeFilenameSafe, Alphabet, SafeSlug;
    LockFileName(alnum, slug);
    SecondaryLockFileName(alnum, slug);
    assert "/tmp" + "/" + "lock_" == "/tmp/lock_" && "/tmp" + "/" + "secondary_lock_" == "/tmp/secondary_lock_";
    Assoc("/tmp/", "lock_", SafeSlug(alnum, slug));
    Assoc("/tmp/", "secondary_lock_", SafeSlug(alnum, slug));
  }

  /** A slug that is safe already is found as it is in the names of its two files. */
  lemma PlainSlug(alnum: CharClass, slug: string)
    requires Alphabet(alnum) && (forall c :: c in slug ==> Kept(alnum, c)) && (slug == "" || slug[|slug| - 1] != ' ')
    ensures LockFilePath(alnum, slug) == "/tmp/lock_" + slug
    ensures SecondaryLockFilePath(alnum, slug) == "/tmp/secondary_lock_" + slug
  {
    hide Alphabet, LockFilePath, SecondaryLockFilePath, Keep, StripRight;
    PathOf(alnum, slug);
    KeepAll(alnum, slug);
    NoTrailingSpace(slug);
  }

  lemma KeepOne(alnum: CharClass, before: string, c: char, after: string)
    ensures Keep(alnum, before + [c] + after)
         == Keep(alnum, before) + (if Kept(alnum, c) then [c] else []) + Keep(alnum, after)
  {
    KeepConcat(alnum, before + [c], after);
    KeepConcat(alnum, before, [c]);
  }

  lemma StripOne(s: string)
    ensures StripRight(s + " ") == StripRight(s)
  {
    assert (s + " ")[..|s|] == s;
  }

  /** A character that is not kept makes no difference, wherever it is, and neither does a space at the end. With
      the above this tells of any two slugs whether they share their files. */
  lemma DroppedCharacters(alnum: CharClass, before: string, c: char, after: string)
    requires Alphabet(alnum)
    ensures !Kept(alnum, c) ==> LockFilePath(alnum, before + [c] + after) == LockFilePath(alnum, before + after)
    ensures LockFilePath(alnum, before + " ") == LockFilePath(alnum, before)
  {
    hide Alphabet, LockFilePath, SecondaryLockFilePath, Keep, StripRight;
    PathOf(alnum, before + [c] + after);
    PathOf(alnum, before + after);
    PathOf(alnum, before + " ");
    PathOf(alnum, before);
    KeepOne(alnum, before, c, after);
    KeepConcat(alnum, before, after);
    assert Keep(alnum, before) + [] == Keep(alnum, before);
    KeepConcat(alnum, before, " ");
    KeepAll(alnum, " ");
    StripOne(Keep(alnum, before));
  }
}
