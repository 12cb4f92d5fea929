/**
 * The format converters of the first client snapshot (client/convert.py and
 * its later copy client/jim_mes/convert.py): a registry of converter classes
 * by type name, and a `Converter` that picks its class from an explicit type
 * or from a file name's suffix. The two files differ in the default type
 * (`csv` and `yaml`) and in the logger: client/convert.py defaults it to
 * None, so logging raises AttributeError unless a logger was passed.
 */
module Convert {
  import opened Wrappers

  /** The registered classes: the three shipped formats, or any other object. */
  datatype Format = Csv | Json | Yaml | OtherFormat(id: nat)

  const CLIENT_DEFAULT_TYPE := "csv"
  const JIM_DEFAULT_TYPE := "yaml"

  class PrototypeDispatcher {
    var objects: map<string, Format>

    constructor ()
      ensures objects == map[]
    {
      objects := map[];
    }

    /** `register_object`: stores or overwrites. */
    method RegisterObject(name: string, obj: Format)
      modifies this
      ensures objects == old(objects)[name := obj]
    {
      objects := objects[name := obj];
    }

    /** `unregister_object`: removes the name; KeyError (raised) and no change when it is absent. */
    method UnregisterObject(name: string) returns (raised: bool)
      modifies this
      ensures raised <==> name !in old(objects)
      ensures objects == old(objects) - {name}
    {
      raised := name !in objects;
      if !raised {
        objects := objects - {name};
      }
    }
  }

  /** The module-level dispatcher after import: csv, json and yaml registered. */
  method ImportDispatcher() returns (d: PrototypeDispatcher)
    ensures fresh(d)
    ensures d.objects == map["csv" := Csv, "json" := Json, "yaml" := Yaml]
  {
    d := new PrototypeDispatcher();
    d.RegisterObject("csv", Csv);
    d.RegisterObject("json", Json);
    d.RegisterObject("yaml", Yaml);
  }

  /** The index of the last occurrence of `c` in `s`, or -1 (`str.rfind`). */
  function RFind(s: string, c: char): (i: int)
    ensures -1 <= i < |s|
    ensures i >= 0 ==> s[i] == c && forall j :: i < j < |s| ==> s[j] != c
    ensures i == -1 ==> forall j :: 0 <= j < |s| ==> s[j] != c
  {
    if s == [] then -1
    else if s[|s| - 1] == c then |s| - 1
    else RFind(s[..|s| - 1], c)
  }

  /**
   * `Path(path).name`: pathlib drops empty components (from repeated or
   * trailing slashes) and "." components, and the name is the last one
   * left, or empty when none is left.
   */
  function BaseName(path: string): (b: string)
    ensures '/' !in b && b != "."
    decreases |path|
  {
    var i := RFind(path, '/');
    var last := path[i + 1..];
    if last != "" && last != "." then
      assert forall j :: 0 <= j < |last| ==> last[j] == path[i + 1 + j];
      last
    else if i < 0 then ""
    else BaseName(path[..i])
  }

  /**
   * `Path(name).suffix.strip('.')`: the text after the last dot of the last
   * component, or empty when that dot is its first or last character.
   */
  function SuffixType(path: string): (t: string)
    ensures '.' !in t && '/' !in t
  {
    var name := BaseName(path);
    var i := RFind(name, '.');
    if 0 < i < |name| - 1 then
      var t := name[i + 1..];
      assert forall j :: 0 <= j < |t| ==> t[j] == name[i + 1 + j];
      t
    else ""
  }

  /** What `self.convert` holds: nothing yet (never resolved), or the registry's answer for a type. */
  datatype Binding = Unbound | Bound(cls: Option<Format>)

  class Converter {
    var typ: string
    var fileName: Option<string>
    var convert: Binding
    /** Whether a logger object is set; False only for client/convert.py's default of None. */
    const hasLogger: bool
    const dispatcher: PrototypeDispatcher

    /** `Converter(type=..., file_name=..., logger=...)`. */
    constructor (dispatcher: PrototypeDispatcher, typ: string, fileName: Option<string>, hasLogger: bool)
      ensures this.dispatcher == dispatcher && this.typ == typ && this.fileName == fileName
      ensures this.hasLogger == hasLogger && convert == Unbound
    {
      this.dispatcher := dispatcher;
      this.typ := typ;
      this.fileName := fileName;
      this.hasLogger := hasLogger;
      convert := Unbound;
    }

    /** Whether a file name is set and non-empty. */
    predicate HasFile()
      reads this
    {
      fileName.Some? && fileName.value != ""
    }

    /** `define_convert`: the type follows the file's suffix; a non-empty type looks its class up (None if unregistered). */
    method DefineConvert()
      modifies this
      ensures typ == (if old(HasFile()) then SuffixType(old(fileName).value) else old(typ))
      ensures typ != "" ==> convert == Bound(if typ in dispatcher.objects then Some(dispatcher.objects[typ]) else None)
      ensures typ == "" ==> convert == old(convert)
      ensures fileName == old(fileName)
    {
      if fileName.Some? && fileName.value != "" {
        typ := SuffixType(fileName.value);
      }
      if typ != "" {
        convert := Bound(if typ in dispatcher.objects then Some(dispatcher.objects[typ]) else None);
      }
    }

    /** Whether the resolved converter can be instantiated: a registered class. */
    predicate Usable()
      reads this
    {
      hasLogger && convert.Bound? && convert.cls.Some?
    }

    /**
     * `write(data, type_)`: an explicit type replaces the type and clears the
     * file name before the class is resolved; the file the converter writes
     * (`written`) becomes the file name. Raised when logging fails or no
     * class is registered for the type.
     */
    method Write(typeArg: string, written: Format -> Option<string>) returns (raised: bool)
      modifies this
      ensures typeArg != "" ==> typ == typeArg
      ensures typeArg == "" ==> typ == (if old(HasFile()) then SuffixType(old(fileName).value) else old(typ))
      ensures typ != "" ==> convert == Bound(if typ in dispatcher.objects then Some(dispatcher.objects[typ]) else None)
      ensures raised <==> !Usable()
      ensures !raised ==> fileName == written(convert.cls.value)
      ensures raised && typeArg != "" ==> fileName == None
      ensures raised && typeArg == "" ==> fileName == old(fileName)
    {
      if typeArg != "" {
        typ := typeArg;
        fileName := None;
      }
      DefineConvert();
      if !hasLogger || !convert.Bound? || convert.cls.None? {
        return true;
      }
      fileName := written(convert.cls.value);
      raised := false;
    }

    /** `read(data)`: a given file name replaces the stored one, then the class is resolved. */
    method Read(data: Option<string>) returns (raised: bool)
      modifies this
      ensures fileName == (if data.Some? && data.value != "" then data else old(fileName))
      ensures typ == (if HasFile() then SuffixType(fileName.value) else old(typ))
      ensures typ != "" ==> convert == Bound(if typ in dispatcher.objects then Some(dispatcher.objects[typ]) else None)
      ensures raised <==> !Usable()
    {
      if data.Some? && data.value != "" {
        fileName := data;
      }
      DefineConvert();
      raised := !Usable();
    }
  }

  /** After registering a name, the registry answers that object; unregistering forgets it. */
  lemma RegisterThenLookup(objects: map<string, Format>, name: string, obj: Format)
    ensures name in objects[name := obj] && objects[name := obj][name] == obj
    ensures name !in (objects[name := obj]) - {name}
    ensures name !in objects ==> (objects[name := obj]) - {name} == objects
  {
    if name !in objects {
      assert ((objects[name := obj]) - {name}).Keys == objects.Keys;
    }
  }

  /** `rfind` finds a character followed by text without it. */
  lemma {:induction false} RFindLast(prefix: string, c: char, t: string)
    requires c !in t
    ensures RFind(prefix + [c] + t, c) == |prefix|
    decreases |t|
  {
    var s := prefix + [c] + t;
    if t != [] {
      assert s[..|s| - 1] == prefix + [c] + t[..|t| - 1];
      assert s[|s| - 1] == t[|t| - 1];
      RFindLast(prefix, c, t[..|t| - 1]);
    }
  }

  /** The name of `dir/name` is `name`, for any name that is a real component. */
  lemma BaseNameOf(dir: string, name: string)
    requires name != "" && name != "." && '/' !in name
    ensures BaseName(dir + "/" + name) == name
  {
    var path := dir + "/" + name;
    assert path == dir + ['/'] + name;
    RFindLast(dir, '/', name);
    assert path[|dir| + 1..] == name;
  }

  /** A trailing slash, or a trailing "/.", does not change the name: pathlib drops those components. */
  lemma BaseNameTrailing(path: string)
    ensures BaseName(path + "/") == BaseName(path)
    ensures BaseName(path + "/.") == BaseName(path)
  {
    var p1 := path + "/";
    assert RFind(p1, '/') == |path|;
    assert p1[|path| + 1..] == "" && p1[..|path|] == path;
    var p2 := path + "/.";
    assert p2[..|p2| - 1] == p1;
    assert RFind(p2, '/') == |path|;
    assert p2[|path| + 1..] == "." && p2[..|path|] == path;
  }

  /** The empty path and the root (any run of slashes) have no name. */
  lemma {:induction false} SlashesOnly(path: string)
    requires forall j :: 0 <= j < |path| ==> path[j] == '/'
    ensures BaseName(path) == ""
    decreases |path|
  {
    if path != [] {
      var i := |path| - 1;
      assert RFind(path, '/') == i;
      assert path[i + 1..] == "";
      SlashesOnly(path[..i]);
    }
  }

  /** A path with no name has no suffix, so no type. */
  lemma NoNameNoSuffix(path: string)
    requires BaseName(path) == ""
    ensures SuffixType(path) == ""
  {
    assert RFind("", '.') == -1;
  }

  /** The suffix of `stem.ext` is `ext`, for a stem and extension without dots or slashes. */
  lemma SuffixOfFileName(dir: string, stem: string, ext: string)
    requires stem != "" && ext != "" && '.' !in stem && '/' !in stem && '.' !in ext && '/' !in ext
    ensures SuffixType(dir + "/" + stem + "." + ext) == ext
    ensures SuffixType(dir + "/" + stem + "." + ext + "/") == ext
    ensures SuffixType(dir + "/" + stem + "." + ext + "/.") == ext
  {
    var name := stem + "." + ext;
    assert dir + "/" + stem + "." + ext == dir + "/" + name;
    BaseNameOf(dir, name);
    BaseNameTrailing(dir + "/" + name);
    assert name == stem + ['.'] + ext;
    RFindLast(stem, '.', ext);
    assert name[|stem| + 1..] == ext;
  }

  /** A dot only at the front (`.json`) or only at the end (`data.`) gives no type; no dot gives none either. */
  lemma NoSuffix(dir: string, name: string)
    requires name != "" && name != "." && '/' !in name
    requires RFind(name, '.') <= 0 || RFind(name, '.') == |name| - 1
    ensures SuffixType(dir + "/" + name) == ""
  {
    BaseNameOf(dir, name);
  }
}
