/** Package manifests, the paths their names spell, and what the loader's scan sees of a tree of
    directories (`tabit-ext/src/manifest.rs`, and `validate` of `tabit-ext-install/src/lib.rs`). */
module Manifests {
  import opened Wrappers
  import opened Sequences

  type Name = string

  /** The directories from the top of the file system down. */
  type Path = seq<string>

  datatype Manifest = Manifest(name: Name, entry: Option<seq<string>>, needs: seq<Name>)

  /** Every directory that holds a manifest file, with the manifest when it parses. */
  type Disk = map<Path, Option<Manifest>>

  const MANIFEST_NAME := "tabit.json"

  function Split(text: string, separator: char): (parts: seq<string>)
    ensures parts != []
  {
    if text == "" then [""] else Prepend(text[0], Split(text[1..], separator), separator)
  }

  function Prepend(c: char, parts: seq<string>, separator: char): (more: seq<string>)
    requires parts != []
    ensures more != []
  {
    if c == separator then [""] + parts else [[c] + parts[0]] + parts[1..]
  }

  lemma PrependConcat(c: char, a: seq<string>, b: seq<string>, separator: char)
    requires a != []
    ensures Prepend(c, a + b, separator) == Prepend(c, a, separator) + b
  {
  }

  lemma PrependSeparator(parts: seq<string>, separator: char)
    requires parts != []
    ensures Prepend(separator, parts, separator) == [""] + parts
  {
  }

  lemma SplitCons(c: char, rest: string, separator: char)
    ensures Split([c] + rest, separator) == Prepend(c, Split(rest, separator), separator)
  {
    assert ([c] + rest)[1..] == rest;
  }

  /** Text without the separator is one part. */
  lemma {:induction false} SplitPlain(text: string, separator: char)
    requires separator !in text
    ensures Split(text, separator) == [text]
  {
    if text != "" {
      SplitPlain(text[1..], separator);
      assert [text[0]] + text[1..] == text;
    }
  }

  lemma {:induction false} SplitConcat(a: string, b: string, separator: char)
    ensures Split(a + [separator] + b, separator) == Split(a, separator) + Split(b, separator)
  {
    SplitPlain("", separator);
    hide Split, Prepend;
    if a == "" {
      PrependSeparator(Split(b, separator), separator);
      SplitCons(separator, b, separator);
      assert a + [separator] + b == [separator] + b;
    } else {
      var whole := a[1..] + [separator] + b;
      SplitConcat(a[1..], b, separator);
      SplitCons(a[0], whole, separator);
      SplitCons(a[0], a[1..], separator);
      PrependConcat(a[0], Split(a[1..], separator), Split(b, separator), separator);
      assert a + [separator] + b == [a[0]] + whole && [a[0]] + a[1..] == a;
    }
  }

  /** Splitting what was joined gives the parts back. */
  lemma {:induction false} SplitJoin(parts: seq<string>, separator: char)
    requires parts != [] && forall i :: 0 <= i < |parts| ==> separator !in parts[i]
    ensures Split(Join(parts, [separator]), separator) == parts
  {
    if |parts| == 1 {
      SplitPlain(parts[0], separator);
    } else {
      SplitJoin(parts[1..], separator);
      SplitPlain(parts[0], separator);
      SplitConcat(parts[0], Join(parts[1..], [separator]), separator);
    }
  }

  /** Joining the parts gives the text back. */
  lemma {:induction false} JoinSplit(text: string, separator: char)
    ensures Join(Split(text, separator), [separator]) == text
  {
    if text != "" {
      JoinSplit(text[1..], separator);
      var rest := Split(text[1..], separator);
      assert text == [text[0]] + text[1..];
      if text[0] == separator {
        assert ([""] + rest)[1..] == rest;
      } else {
        assert ([[text[0]] + rest[0]] + rest[1..])[1..] == rest[1..];
      }
    }
  }

  // ---- names and paths

  /** A part that names a directory of its own, rather than the same one or the one above. */
  predicate PlainPart(part: string) {
    part != "" && part != "." && part != ".."
  }

  /** A name spelled the one way its directory is. */
  predicate Plain(name: Name) {
    '\\' !in name && forall i :: 0 <= i < |Split(name, '/')| ==> PlainPart(Split(name, '/')[i])
  }

  function Slashes(name: Name): (text: string)
    ensures |text| == |name|
    ensures '\\' !in text && ('\\' !in name ==> text == name)
  {
    seq(|name|, i requires 0 <= i < |name| => if name[i] == '\\' then '/' else name[i])
  }

  function Follow(from: Path, parts: seq<string>): Path
    decreases parts
  {
    if parts == [] then from
    else if parts[0] == "" || parts[0] == "." then Follow(from, parts[1..])
    else if parts[0] == ".." then Follow(if from == [] then [] else from[..|from| - 1], parts[1..])
    else Follow(from + [parts[0]], parts[1..])
  }

  /** Where a package of that name lives: backslashes read as slashes, empty and dot parts stay, a
      leading slash leaves the root. */
  function Dir(root: Path, name: Name): Path {
    var text := Slashes(name);
    Follow(if text != "" && text[0] == '/' then [] else root, Split(text, '/'))
  }

  lemma {:induction false} FollowConcat(from: Path, a: seq<string>, b: seq<string>)
    ensures Follow(from, a + b) == Follow(Follow(from, a), b)
    decreases a
  {
    if a == [] {
      assert a + b == b;
    } else {
      assert (a + b)[1..] == a[1..] + b;
      FollowConcat(if a[0] == "" || a[0] == "." then from
                   else if a[0] == ".." then if from == [] then [] else from[..|from| - 1]
                   else from + [a[0]], a[1..], b);
    }
  }

  /** Dots and empty parts lead nowhere: other spellings of one directory. */
  lemma DetoursMeet(root: Path, a: Name, b: Name)
    requires '\\' !in a && '\\' !in b && a != "" && a[0] != '/'
    ensures Dir(root, "./" + a) == Dir(root, a) == Dir(root, a + "/")
    ensures Dir(root, a + "//" + b) == Dir(root, a + "/" + b)
  {
    SplitPlain(".", '/');
    SplitPlain("", '/');
    DirConcat(root, ".", a);
    DirConcat(root, a, "");
    DirConcat(root, a, b);
    DirConcat(root, a, "/" + b);
    SplitConcat("", b, '/');
    assert "." + "/" + a == "./" + a && a + "/" + "" == a + "/" && "" + ['/'] + b == "/" + b;
    assert a + "/" + ("/" + b) == a + "//" + b;
    var there := Follow(root, Split(a, '/'));
    hide Split, Dir;
    assert Dir(root, a) == there by {
      DirOf(root, a);
    }
    FollowConcat(there, [""], Split(b, '/'));
  }

  lemma DirOf(root: Path, name: Name)
    requires '\\' !in name && name != "" && name[0] != '/'
    ensures Dir(root, name) == Follow(root, Split(name, '/'))
  {
    assert Slashes(name) == name;
  }

  lemma DirConcat(root: Path, a: Name, b: Name)
    requires '\\' !in a && '\\' !in b && a != "" && a[0] != '/'
    ensures Dir(root, a + "/" + b) == Follow(Follow(root, Split(a, '/')), Split(b, '/'))
  {
    var name := a + "/" + b;
    assert name == a + ['/'] + b;
    DirOf(root, name);
    SplitConcat(a, b, '/');
    FollowConcat(root, Split(a, '/'), Split(b, '/'));
  }

  /** So does a backslash for a slash. */
  lemma BackslashMeets(root: Path, name: Name)
    ensures Dir(root, name) == Dir(root, Slashes(name))
  {
    assert Slashes(Slashes(name)) == Slashes(name);
  }

  /** Two dots lead back out of the directory before them; at the top they lead nowhere. A backslash is a
      slash. A leading slash leaves the root. */
  lemma OddSpellingsLead(root: Path, a: Name, b: Name)
    requires '\\' !in a && '\\' !in b
    ensures a != "" && a[0] != '/' && PlainPart(Split(a, '/')[|Split(a, '/')| - 1]) ==>
      Dir(root, a + "/..") == Follow(root, Split(a, '/')[..|Split(a, '/')| - 1])
    ensures root != [] ==> Dir(root, "..") == root[..|root| - 1]
    ensures Dir(root, a + "\\" + b) == Dir(root, a + "/" + b)
    ensures Dir(root, "/" + a) == Dir([], "/" + a)
  {
    assert Slashes(a + "\\" + b) == a + "/" + b;
    assert Slashes(a + "/" + b) == a + "/" + b;
    SplitPlain("..", '/');
    if a != "" && a[0] != '/' {
      var parts := Split(a, '/');
      DirConcat(root, a, "..");
      assert a + "/" + ".." == a + "/..";
      assert parts == parts[..|parts| - 1] + [parts[|parts| - 1]];
      FollowConcat(root, parts[..|parts| - 1], [parts[|parts| - 1]]);
    }
    DirOf(root, "..");
    hide Split;
  }

  lemma {:induction false} FollowPlain(from: Path, parts: seq<string>)
    requires forall i :: 0 <= i < |parts| ==> PlainPart(parts[i])
    ensures Follow(from, parts) == from + parts
    decreases parts
  {
    if parts != [] {
      FollowPlain(from + [parts[0]], parts[1..]);
      assert from + [parts[0]] + parts[1..] == from + parts;
    }
  }

  /** A plain name's parts are its directories below the root. */
  lemma PlainDir(root: Path, name: Name)
    requires Plain(name)
    ensures Dir(root, name) == root + Split(name, '/')
  {
    if name != "" && name[0] == '/' {
      assert Split(name, '/')[0] == "";
    }
    FollowPlain(root, Split(name, '/'));
  }

  /** Two plain names of one directory are one name. */
  lemma PlainInjective(root: Path, a: Name, b: Name)
    requires Plain(a) && Plain(b) && Dir(root, a) == Dir(root, b)
    ensures a == b
  {
    PlainDir(root, a);
    PlainDir(root, b);
    assert Split(a, '/') == (root + Split(a, '/'))[|root|..] == Split(b, '/');
    JoinSplit(a, '/');
    JoinSplit(b, '/');
  }

  predicate ValidPart(part: string) {
    PlainPart(part) && '\\' !in part && ':' !in part
  }

  /** The installer's own check of a staged manifest. */
  predicate Valid(m: Manifest) {
    m.name != "" && (forall i :: 0 <= i < |Split(m.name, '/')| ==> ValidPart(Split(m.name, '/')[i]))
    && m.entry != Some([])
  }

  lemma {:induction false} SplitKeepsBackslash(text: string)
    requires '\\' in text
    ensures exists i :: 0 <= i < |Split(text, '/')| && '\\' in Split(text, '/')[i]
  {
    var rest := Split(text[1..], '/');
    if '\\' in text[1..] {
      SplitKeepsBackslash(text[1..]);
      var i :| 0 <= i < |rest| && '\\' in rest[i];
      if text[0] == '/' {
        assert Split(text, '/')[i + 1] == rest[i];
      } else if i == 0 {
        assert Split(text, '/')[0] == [text[0]] + rest[0];
      } else {
        assert Split(text, '/')[i] == rest[i];
      }
    } else {
      assert text[0] == '\\';
      assert Split(text, '/')[0] == ['\\'] + rest[0];
    }
  }

  /** The check lets plain names through only. */
  lemma ValidIsPlain(m: Manifest)
    requires Valid(m)
    ensures Plain(m.name)
  {
    if '\\' in m.name {
      SplitKeepsBackslash(m.name);
    }
  }

  // ---- what the scan sees

  /** The paths the scan looks at: a directory below the root that is no scope, or one inside a scope. */
  predicate ScanShape(root: Path, d: Path) {
    root <= d &&
    if |d| == |root| + 1 then !Scope(d[|root|]) else |d| == |root| + 2 && Scope(d[|root|])
  }

  predicate Scope(part: string) {
    part != "" && part[0] == '@'
  }

  /** The name the scan expects of a package there. */
  function NameAt(root: Path, d: Path): Name
    requires ScanShape(root, d)
  {
    Join(d[|root|..], "/")
  }

  /** The scan accepts the package: its path is looked at, its manifest parses and names that path,
      and a declared entry is not empty. */
  predicate Accepted(root: Path, disk: Disk, d: Path) {
    d in disk && ScanShape(root, d) && disk[d].Some?
    && disk[d].value.name == NameAt(root, d) && disk[d].value.entry != Some([])
  }

  function Mounted(root: Path, disk: Disk, disabled: set<Name>): set<Name> {
    set d | d in disk && Accepted(root, disk, d) && disk[d].value.name !in disabled :: disk[d].value.name
  }

  /** The loader mounts the package for good: it is accepted, not disabled, and everything it requires
      is accepted and not disabled. */
  predicate Loads(root: Path, disk: Disk, disabled: set<Name>, d: Path) {
    Accepted(root, disk, d) && disk[d].value.name !in disabled
    && forall r :: r in disk[d].value.needs ==> r in Mounted(root, disk, disabled)
  }

  /** A path as a file system has them: every step has a name without a slash. */
  predicate Real(d: Path) {
    forall i :: 0 <= i < |d| ==> PlainPart(d[i]) && '/' !in d[i]
  }

  /** The scan expects different names in different places. */
  lemma NameAtInjective(root: Path, a: Path, b: Path)
    requires Real(a) && Real(b) && ScanShape(root, a) && ScanShape(root, b) && NameAt(root, a) == NameAt(root, b)
    ensures a == b
  {
    SplitNameAt(root, a);
    SplitNameAt(root, b);
    assert a == root + a[|root|..] && b == root + b[|root|..];
  }

  lemma SplitNameAt(root: Path, d: Path)
    requires Real(d) && ScanShape(root, d)
    ensures Split(NameAt(root, d), '/') == d[|root|..]
  {
    SplitJoin(d[|root|..], '/');
  }
}
