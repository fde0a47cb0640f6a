/** Migration files on disk: the name printer of CreateMigration, the name parser and reader
    of loadMigrations. */
module MigrationFiles {
  import opened Text

  datatype Direction = Up | Down

  function DirectionText(d: Direction): string {
    match d case Up => "up" case Down => "down"
  }

  datatype File = File(name: string, content: string)

  /** What a file name says about a migration. */
  datatype Meta = Meta(id: string, kind: string, name: string)

  datatype Migration = Migration(id: string, kind: string, name: string, direction: Direction, sql: string)

  /** <id>_<kind>_<name>, the base both files of a migration share. */
  function BaseName(m: Meta): string {
    m.id + "_" + m.kind + "_" + m.name
  }

  function FileName(m: Meta, d: Direction): string {
    BaseName(m) + "." + DirectionText(d) + ".sql"
  }

  /** The fields loadMigrations reads off a file name, or None for a file it skips. */
  function ParseFileName(filename: string, wanted: Direction): Option<Meta> {
    var parts := Split(filename, '.');
    if |parts| != 3 || parts[2] != "sql" then None
    else if parts[1] != DirectionText(wanted) then None
    else
      var nameParts := Split(parts[0], '_');
      if |nameParts| < 3 then None
      else Some(Meta(nameParts[0], nameParts[1], Join(nameParts[2..], '_')))
  }

  /** The fields a printed name can carry. */
  predicate Printable(m: Meta) {
    && '_' !in m.id && '.' !in m.id
    && '_' !in m.kind && '.' !in m.kind
    && '.' !in m.name
  }

  lemma SplitFileName(base: string, d: Direction)
    requires '.' !in base
    ensures Split(base + "." + DirectionText(d) + ".sql", '.') == [base, DirectionText(d), "sql"]
  {
    var t := DirectionText(d);
    assert base + "." + t + ".sql" == base + ['.'] + (t + ['.'] + "sql");
    SplitPrefix(base, t + ['.'] + "sql", '.');
    SplitPrefix(t, "sql", '.');
    SplitWhole("sql", '.');
  }

  lemma SplitBaseName(m: Meta)
    requires '_' !in m.id && '_' !in m.kind
    ensures Split(BaseName(m), '_') == [m.id, m.kind] + Split(m.name, '_')
  {
    var tail := m.kind + ['_'] + m.name;
    assert BaseName(m) == m.id + ['_'] + tail;
    SplitPrefix(m.id, tail, '_');
    SplitPrefix(m.kind, m.name, '_');
  }

  /** Printing then parsing gives the fields back exactly when the id and the kind hold neither
      separator and the name holds no dot; underscores in the name are kept. */
  lemma PrintThenParse(m: Meta, d: Direction)
    ensures ParseFileName(FileName(m, d), d) == Some(m) <==> Printable(m)
  {
    var f := FileName(m, d);
    if Printable(m) {
      assert '.' !in BaseName(m);
      SplitFileName(BaseName(m), d);
      SplitBaseName(m);
      assert ([m.id, m.kind] + Split(m.name, '_'))[2..] == Split(m.name, '_');
      JoinSplit(m.name, '_');
    }
    if ParseFileName(f, d) == Some(m) {
      var base := Split(f, '.')[0];
      SplitChars(base, '_', '.');
      JoinChars(Split(base, '_')[2..], '_', '.');
    }
  }

  /** The other direction asks for another file. */
  lemma ParseOtherDirection(m: Meta, d: Direction)
    requires Printable(m)
    ensures ParseFileName(FileName(m, if d.Up? then Down else Up), d) == None
  {
    assert '.' !in BaseName(m);
    SplitFileName(BaseName(m), if d.Up? then Down else Up);
  }

  lemma JoinThree(parts: seq<string>, sep: char)
    requires |parts| >= 3
    ensures Join(parts, sep) == parts[0] + [sep] + (parts[1] + [sep] + Join(parts[2..], sep))
    ensures |parts| == 3 ==> Join(parts[2..], sep) == parts[2]
  {
    assert parts[1..][1..] == parts[2..];
  }

  /** Every accepted file name is the print of what was parsed from it. */
  lemma ParseThenPrint(f: string, d: Direction)
    requires ParseFileName(f, d).Some?
    ensures FileName(ParseFileName(f, d).value, d) == f
    ensures Printable(ParseFileName(f, d).value)
  {
    var m := ParseFileName(f, d).value;
    var parts := Split(f, '.');
    var names := Split(parts[0], '_');
    JoinSplit(f, '.');
    JoinThree(parts, '.');
    JoinSplit(parts[0], '_');
    JoinThree(names, '_');
    assert parts[0] == m.id + ['_'] + (m.kind + ['_'] + m.name);
    assert parts[0] == BaseName(m);
    assert FileName(m, d) == f;
    PrintThenParse(m, d);
  }

  /** The two names CreateMigration writes, as the loader reads them in either direction. */
  lemma CreatedNames(id: string, kind: string, name: string)
    requires Printable(Meta(id, kind, name))
    ensures ParseFileName(id + "_" + kind + "_" + name + ".up.sql", Up) == Some(Meta(id, kind, name))
    ensures ParseFileName(id + "_" + kind + "_" + name + ".down.sql", Down) == Some(Meta(id, kind, name))
    ensures ParseFileName(id + "_" + kind + "_" + name + ".up.sql", Down) == None
    ensures ParseFileName(id + "_" + kind + "_" + name + ".down.sql", Up) == None
  {
    var m := Meta(id, kind, name);
    PrintThenParse(m, Up);
    PrintThenParse(m, Down);
    ParseOtherDirection(m, Up);
    ParseOtherDirection(m, Down);
    assert FileName(m, Up) == id + "_" + kind + "_" + name + ".up.sql";
    assert FileName(m, Down) == id + "_" + kind + "_" + name + ".down.sql";
  }

  /** The migration a file contributes when loading one direction. */
  function One(f: File, wanted: Direction): seq<Migration> {
    match ParseFileName(f.name, wanted)
    case None => []
    case Some(m) => [Migration(m.id, m.kind, m.name, wanted, f.content)]
  }

  /** Everything one direction has on disk, in directory order. */
  function Available(dir: seq<File>, wanted: Direction): seq<Migration> {
    if dir == [] then [] else Available(dir[..|dir| - 1], wanted) + One(dir[|dir| - 1], wanted)
  }

  lemma AvailableAppend(dir: seq<File>, f: File, wanted: Direction)
    ensures Available(dir + [f], wanted) == Available(dir, wanted) + One(f, wanted)
  {
    assert (dir + [f])[..|dir|] == dir;
  }

  /** loadMigrations: skip what does not parse, give up on the first file that cannot be read. */
  method LoadMigrations(dir: seq<File>, unreadable: set<string>, wanted: Direction)
    returns (r: Option<seq<Migration>>)
    ensures r.None? <==> exists f <- dir :: f.name in unreadable && ParseFileName(f.name, wanted).Some?
    ensures r.Some? ==> r.value == Available(dir, wanted)
  {
    var migrations := [];
    for i := 0 to |dir|
      invariant migrations == Available(dir[..i], wanted)
      invariant forall f <- dir[..i] :: f.name in unreadable ==> ParseFileName(f.name, wanted).None?
    {
      assert dir[..i + 1] == dir[..i] + [dir[i]];
      AvailableAppend(dir[..i], dir[i], wanted);
      var meta := ParseFileName(dir[i].name, wanted);
      if meta.Some? {
        if dir[i].name in unreadable {
          return None;
        }
        var m := meta.value;
        migrations := migrations + [Migration(m.id, m.kind, m.name, wanted, dir[i].content)];
      }
    }
    assert dir[..|dir|] == dir;
    return Some(migrations);
  }

  /** os.WriteFile: replace the file of that name, or add it. */
  function WriteFile(dir: seq<File>, f: File): (r: seq<File>)
    ensures f in r
    ensures forall g :: g in r <==> g == f || (g in dir && g.name != f.name)
  {
    if dir == [] then [f]
    else if dir[0].name == f.name then [f] + DropName(dir[1..], f.name)
    else [dir[0]] + WriteFile(dir[1..], f)
  }

  function DropName(dir: seq<File>, name: string): (r: seq<File>)
    ensures forall g :: g in r <==> g in dir && g.name != name
  {
    if dir == [] then []
    else if dir[0].name == name then DropName(dir[1..], name)
    else [dir[0]] + DropName(dir[1..], name)
  }

  lemma {:induction false} WriteNewFile(dir: seq<File>, f: File)
    requires forall g <- dir :: g.name != f.name
    ensures WriteFile(dir, f) == dir + [f]
  {
    if dir != [] {
      WriteNewFile(dir[1..], f);
    }
  }

  datatype CreateFault = NoFault | MkdirFails | UpWriteFails | DownWriteFails

  function Template(name: string, suffix: string, kind: string, created: string): string {
    "-- Migration: " + name + suffix + "\n-- Type: " + kind + "\n-- Created: " + created + "\n\n"
  }

  /** To SQL a template says nothing: each of its lines is empty or a comment, as long as nothing written into
      it breaks a line. */
  lemma TemplateIsComment(name: string, suffix: string, kind: string, created: string)
    requires '\n' !in name && '\n' !in suffix && '\n' !in kind && '\n' !in created
    ensures Split(Template(name, suffix, kind, created), '\n')
         == ["-- Migration: " + name + suffix, "-- Type: " + kind, "-- Created: " + created, "", ""]
    ensures forall line <- Split(Template(name, suffix, kind, created), '\n') :: line == "" || "--" <= line
  {
    var a, b, c := "-- Migration: " + name + suffix, "-- Type: " + kind, "-- Created: " + created;
    assert "\n-- Type: " + kind == "\n" + b && "\n-- Created: " + created == "\n" + c;
    assert Template(name, suffix, kind, created) == a + "\n" + b + "\n" + c + "\n\n";
    FourLines(a, b, c);
  }

  lemma FourLines(a: string, b: string, c: string)
    requires '\n' !in a && '\n' !in b && '\n' !in c
    ensures Split(a + "\n" + b + "\n" + c + "\n\n", '\n') == [a, b, c, "", ""]
  {
    var end := "" + ['\n'] + "";
    assert a + "\n" + b + "\n" + c + "\n\n" == a + ['\n'] + (b + ['\n'] + (c + ['\n'] + end));
    SplitPrefix(a, b + ['\n'] + (c + ['\n'] + end), '\n');
    SplitPrefix(b, c + ['\n'] + end, '\n');
    SplitPrefix(c, end, '\n');
    SplitPrefix("", "", '\n');
  }

  class Directory {
    var files: seq<File>

    constructor ()
      ensures files == []
    {
      files := [];
    }

    /** CreateMigration. `id` and `created` are the two renderings of the clock. */
    method CreateMigration(name: string, kind: string, id: string, created: string, fault: CreateFault)
      returns (r: Option<string>)
      modifies this
      ensures r.Some? <==> fault.NoFault?
      ensures r.Some? ==> r.value == id + "_" + kind + "_" + name
      ensures
        var up := File(id + "_" + kind + "_" + name + ".up.sql", Template(name, "", kind, created));
        var down := File(id + "_" + kind + "_" + name + ".down.sql", Template(name, " (rollback)", kind, created));
        files == match fault
          case MkdirFails | UpWriteFails => old(files)
          case DownWriteFails => WriteFile(old(files), up)
          case NoFault => WriteFile(WriteFile(old(files), up), down)
    {
      var base := id + "_" + kind + "_" + name;
      if fault.MkdirFails? || fault.UpWriteFails? {
        return None;
      }
      files := WriteFile(files, File(base + ".up.sql", Template(name, "", kind, created)));
      if fault.DownWriteFails? {
        return None;
      }
      files := WriteFile(files, File(base + ".down.sql", Template(name, " (rollback)", kind, created)));
      return Some(base);
    }
  }

  /** A freshly created pair is picked up by the loader: one new migration in each direction. */
  lemma CreatedPairLoads(dir: seq<File>, m: Meta, upSql: string, downSql: string)
    requires Printable(m)
    ensures
      var dir' := dir + [File(FileName(m, Up), upSql)] + [File(FileName(m, Down), downSql)];
      && Available(dir', Up) == Available(dir, Up) + [Migration(m.id, m.kind, m.name, Up, upSql)]
      && Available(dir', Down) == Available(dir, Down) + [Migration(m.id, m.kind, m.name, Down, downSql)]
  {
    var up, down := File(FileName(m, Up), upSql), File(FileName(m, Down), downSql);
    PrintThenParse(m, Up);
    PrintThenParse(m, Down);
    ParseOtherDirection(m, Up);
    ParseOtherDirection(m, Down);
    AvailableAppend(dir, up, Up);
    AvailableAppend(dir, up, Down);
    AvailableAppend(dir + [up], down, Up);
    AvailableAppend(dir + [up], down, Down);
  }
}
