/**
 * Discovery of per-page entry bundles (`getPagesFiles`): every file of the
 * script listing and of the style listing is filed under its page name, the
 * file name with the first occurrence of its extension removed, and the
 * directory-qualified path is appended to that name's list.
 */
module PageFiles {
  import opened Strings

  const JsExt := ".js"
  const ScssExt := ".scss"
  const JsPagesDir := "./js/pages/"
  const ScssPagesDir := "./scss/pages/"

  /**
   * The page name of a listed file: `file.replace(ext, '')`. A file without
   * the extension keeps its name; a file `<n><ext>` is named `<n>` when the
   * extension does not overlap itself and `<n>` does not hold it.
   */
  function PageName(file: string, ext: string): (name: string)
    ensures !Occurs(file, ext) ==> name == file
    ensures var k := |file| - |ext|;
            0 <= k && file[k..] == ext && Borderless(ext) && !Occurs(file[..k], ext) ==> name == file[..k]
  {
    ReplaceFirstOfSuffixed(file, ext);
    ReplaceFirst(file, ext, "")
  }

  /** The page name of a file of the script listing: `<n>.js` is named `<n>` when `<n>` holds no `.js`. */
  function ScriptPageName(file: string): (name: string)
    ensures !Occurs(file, JsExt) ==> name == file
    ensures var k := |file| - |JsExt|;
            0 <= k && file[k..] == JsExt && !Occurs(file[..k], JsExt) ==> name == file[..k]
  {
    DiscoveryExtensionsBorderless();
    PageName(file, JsExt)
  }

  /** The page name of a file of the style listing: `<n>.scss` is named `<n>` when `<n>` holds no `.scss`. */
  function StylePageName(file: string): (name: string)
    ensures !Occurs(file, ScssExt) ==> name == file
    ensures var k := |file| - |ScssExt|;
            0 <= k && file[k..] == ScssExt && !Occurs(file[..k], ScssExt) ==> name == file[..k]
  {
    DiscoveryExtensionsBorderless();
    PageName(file, ScssExt)
  }

  /** The script `<n>.js` of a name `<n>` without `.js` is filed under `<n>`. */
  lemma ScriptOfName(n: string)
    requires !Occurs(n, JsExt)
    ensures ScriptPageName(n + JsExt) == n
  {
    var file := n + JsExt;
    assert file[..|n|] == n && file[|n|..] == JsExt;
  }

  /** The style `<n>.scss` of a name `<n>` without `.scss` is filed under `<n>`. */
  lemma StyleOfName(n: string)
    requires !Occurs(n, ScssExt)
    ensures StylePageName(n + ScssExt) == n
  {
    var file := n + ScssExt;
    assert file[..|n|] == n && file[|n|..] == ScssExt;
  }

  /*
   * The functions and lemmas below take the naming rule `nameOf` of a listing
   * as a parameter: the script listing is named by `ScriptPageName`, the
   * style listing by `StylePageName`.
   */

  /** Every page name that some file of `listing` yields. */
  function PageNames(listing: seq<string>, nameOf: string -> string): set<string> {
    set file | file in listing :: nameOf(file)
  }

  /** Indices, in listing order, of the files of `listing` whose page name is `name`. */
  function Matching(listing: seq<string>, nameOf: string -> string, name: string): (r: seq<nat>)
    ensures forall m :: 0 <= m < |r| ==> r[m] < |listing| && nameOf(listing[r[m]]) == name
    ensures forall m1, m2 :: 0 <= m1 < m2 < |r| ==> r[m1] < r[m2]
    ensures forall i :: 0 <= i < |listing| && nameOf(listing[i]) == name ==> i in r
  {
    if listing == [] then []
    else
      var last := |listing| - 1;
      Matching(listing[..last], nameOf, name) + (if nameOf(listing[last]) == name then [last] else [])
  }

  /** The paths `dir + file`, in listing order, of the files of `listing` whose page name is `name`. */
  function PathsNamed(listing: seq<string>, nameOf: string -> string, dir: string, name: string): (paths: seq<string>)
    ensures |paths| <= |listing|
  {
    if listing == [] then []
    else
      var last := |listing| - 1;
      PathsNamed(listing[..last], nameOf, dir, name)
        + (if nameOf(listing[last]) == name then [dir + listing[last]] else [])
  }

  /**
   * The map `getPagesFiles` builds from a script listing named by `scriptName`
   * and a style listing named by `styleName`: one key per page name found in
   * either listing, holding first the script paths and then the style paths
   * filed under that name.
   */
  function Discovered(scripts: seq<string>, scriptName: string -> string, styles: seq<string>, styleName: string -> string)
    : (discovered: map<string, seq<string>>)
    ensures forall i :: 0 <= i < |scripts| ==>
              scriptName(scripts[i]) in discovered && JsPagesDir + scripts[i] in discovered[scriptName(scripts[i])]
    ensures forall i :: 0 <= i < |styles| ==>
              styleName(styles[i]) in discovered && ScssPagesDir + styles[i] in discovered[styleName(styles[i])]
  {
    EveryFileFiled(scripts, scriptName, JsPagesDir);
    EveryFileFiled(styles, styleName, ScssPagesDir);
    map name | name in PageNames(scripts, scriptName) + PageNames(styles, styleName) ::
      PathsNamed(scripts, scriptName, JsPagesDir, name) + PathsNamed(styles, styleName, ScssPagesDir, name)
  }

  /** What `getPagesFiles` returns: discovery with the source's two naming rules. */
  function PagesFiles(scripts: seq<string>, styles: seq<string>): (files: map<string, seq<string>>)
    ensures forall i :: 0 <= i < |scripts| ==>
              ScriptPageName(scripts[i]) in files && JsPagesDir + scripts[i] in files[ScriptPageName(scripts[i])]
    ensures forall i :: 0 <= i < |styles| ==>
              StylePageName(styles[i]) in files && ScssPagesDir + styles[i] in files[StylePageName(styles[i])]
  {
    Discovered(scripts, ScriptPageName, styles, StylePageName)
  }

  /**
   * `files` after every file of `listing` has been filed into it: the keys
   * gain the listing's page names, and each list is extended by the paths
   * of the matching files, in listing order.
   */
  function Appended(files: map<string, seq<string>>, listing: seq<string>, nameOf: string -> string, dir: string)
    : (filed: map<string, seq<string>>)
    ensures files.Keys <= filed.Keys
    ensures forall name :: name in files ==> files[name] <= filed[name]
  {
    map name | name in files.Keys + PageNames(listing, nameOf) ::
      (if name in files then files[name] else []) + PathsNamed(listing, nameOf, dir, name)
  }

  /**
   * One `forEach` pass of `getPagesFiles` over a listing: for each file, the
   * list of its page name is created when absent and the path `dir + file`
   * is pushed onto it.
   */
  method FileListing(files: map<string, seq<string>>, listing: seq<string>, nameOf: string -> string, dir: string)
    returns (filed: map<string, seq<string>>)
    ensures filed == Appended(files, listing, nameOf, dir)
  {
    filed := files;
    assert PageNames([], nameOf) == {};
    assert forall name :: name in files ==> files[name] + PathsNamed([], nameOf, dir, name) == files[name];
    assert filed == Appended(files, [], nameOf, dir);
    for i := 0 to |listing|
      invariant filed == Appended(files, listing[..i], nameOf, dir)
    {
      var file := listing[i];
      var name := nameOf(file);
      var paths := if name in filed then filed[name] else [];
      filed := filed[name := paths + [dir + file]];
      FileStep(files, listing, nameOf, dir, i);
    }
    assert listing[..|listing|] == listing;
  }

  /** `getPagesFiles`: the script listing is filed into an empty map, then the style listing. */
  method GetPagesFiles(scripts: seq<string>, styles: seq<string>) returns (files: map<string, seq<string>>)
    ensures files == PagesFiles(scripts, styles)
  {
    var fromScripts := FileListing(map[], scripts, ScriptPageName, JsPagesDir);
    files := FileListing(fromScripts, styles, StylePageName, ScssPagesDir);
    TwoPasses(scripts, ScriptPageName, styles, StylePageName);
  }

  /** A name that no file yields has no paths filed under it. */
  lemma {:induction false} PathsNamedEmpty(listing: seq<string>, nameOf: string -> string, dir: string, name: string)
    requires name !in PageNames(listing, nameOf)
    ensures PathsNamed(listing, nameOf, dir, name) == []
  {
    if listing != [] {
      var last := |listing| - 1;
      assert PageNames(listing[..last], nameOf) <= PageNames(listing, nameOf);
      PathsNamedEmpty(listing[..last], nameOf, dir, name);
    }
  }

  /** Appending one file to a listing adds its page name and appends its path under that name only. */
  lemma AppendFile(listing: seq<string>, file: string, nameOf: string -> string, dir: string, name: string)
    ensures PageNames(listing + [file], nameOf) == PageNames(listing, nameOf) + {nameOf(file)}
    ensures PathsNamed(listing + [file], nameOf, dir, name)
         == PathsNamed(listing, nameOf, dir, name) + (if nameOf(file) == name then [dir + file] else [])
  {
    assert (listing + [file])[..|listing|] == listing;
  }

  /** One loop iteration files `dir + listing[i]` under the page name of `listing[i]`, creating its list when absent. */
  lemma FileStep(files: map<string, seq<string>>, listing: seq<string>, nameOf: string -> string, dir: string, i: nat)
    requires i < |listing|
    ensures var before := Appended(files, listing[..i], nameOf, dir);
            var name := nameOf(listing[i]);
            Appended(files, listing[..i + 1], nameOf, dir)
              == before[name := (if name in before then before[name] else []) + [dir + listing[i]]]
  {
    var before := Appended(files, listing[..i], nameOf, dir);
    var after := Appended(files, listing[..i + 1], nameOf, dir);
    var name := nameOf(listing[i]);
    var expected := before[name := (if name in before then before[name] else []) + [dir + listing[i]]];
    FileStepKeys(files, listing, nameOf, dir, i);
    forall k | k in after ensures after[k] == expected[k] {
      FileStepAt(files, listing, nameOf, dir, i, k);
    }
  }

  /** One more loop iteration adds the file's page name to the keys and no other. */
  lemma FileStepKeys(files: map<string, seq<string>>, listing: seq<string>, nameOf: string -> string, dir: string, i: nat)
    requires i < |listing|
    ensures Appended(files, listing[..i + 1], nameOf, dir).Keys
         == Appended(files, listing[..i], nameOf, dir).Keys + {nameOf(listing[i])}
  {
    assert listing[..i + 1] == listing[..i] + [listing[i]];
    AppendFile(listing[..i], listing[i], nameOf, dir, nameOf(listing[i]));
  }

  /** The list under one key after one more loop iteration. */
  lemma FileStepAt(files: map<string, seq<string>>, listing: seq<string>, nameOf: string -> string, dir: string, i: nat, k: string)
    requires i < |listing|
    requires k in Appended(files, listing[..i + 1], nameOf, dir)
    ensures var before := Appended(files, listing[..i], nameOf, dir);
            var listed := if k in before then before[k] else [];
            Appended(files, listing[..i + 1], nameOf, dir)[k]
              == listed + (if nameOf(listing[i]) == k then [dir + listing[i]] else [])
  {
    var done := listing[..i];
    var file := listing[i];
    assert listing[..i + 1] == done + [file];
    AppendFile(done, file, nameOf, dir, k);
    var before := Appended(files, done, nameOf, dir);
    var prior := if k in files then files[k] else [];
    if k !in before {
      PathsNamedEmpty(done, nameOf, dir, k);
      assert PathsNamed(done, nameOf, dir, k) == [];
    } else {
      assert before[k] == prior + PathsNamed(done, nameOf, dir, k);
    }
  }

  /** Filing the scripts into an empty map and then the styles gives the declarative `Discovered` map. */
  lemma TwoPasses(scripts: seq<string>, scriptName: string -> string, styles: seq<string>, styleName: string -> string)
    ensures Appended(Appended(map[], scripts, scriptName, JsPagesDir), styles, styleName, ScssPagesDir)
         == Discovered(scripts, scriptName, styles, styleName)
  {
    var both := Appended(Appended(map[], scripts, scriptName, JsPagesDir), styles, styleName, ScssPagesDir);
    var discovered := Discovered(scripts, scriptName, styles, styleName);
    assert both.Keys == discovered.Keys;
    forall name | name in both ensures both[name] == discovered[name] {
      TwoPassesAt(scripts, scriptName, styles, styleName, name);
    }
  }

  /** The list under one name after the two passes: its script paths, then its style paths. */
  lemma TwoPassesAt(scripts: seq<string>, scriptName: string -> string, styles: seq<string>, styleName: string -> string, name: string)
    requires name in PageNames(scripts, scriptName) + PageNames(styles, styleName)
    ensures Appended(Appended(map[], scripts, scriptName, JsPagesDir), styles, styleName, ScssPagesDir)[name]
         == PathsNamed(scripts, scriptName, JsPagesDir, name) + PathsNamed(styles, styleName, ScssPagesDir, name)
  {
    var fromScripts := Appended(map[], scripts, scriptName, JsPagesDir);
    var both := Appended(fromScripts, styles, styleName, ScssPagesDir);
    var scriptPaths := PathsNamed(scripts, scriptName, JsPagesDir, name);
    var stylePaths := PathsNamed(styles, styleName, ScssPagesDir, name);
    assert fromScripts.Keys == PageNames(scripts, scriptName);
    assert name in both.Keys;
    var before := if name in fromScripts then fromScripts[name] else [];
    assert both[name] == before + stylePaths;
    if name in fromScripts {
      assert fromScripts[name] == [] + scriptPaths;
    } else {
      PathsNamedEmpty(scripts, scriptName, JsPagesDir, name);
    }
    assert before == scriptPaths;
  }

  /** The paths filed under a name are `dir + file` for exactly the matching files, in listing order. */
  lemma {:induction false} PathsFollowMatching(listing: seq<string>, nameOf: string -> string, dir: string, name: string)
    ensures var paths := PathsNamed(listing, nameOf, dir, name);
            var indices := Matching(listing, nameOf, name);
            |paths| == |indices| && forall m :: 0 <= m < |paths| ==> paths[m] == dir + listing[indices[m]]
  {
    if listing != [] {
      var last := |listing| - 1;
      var prefix := listing[..last];
      PathsFollowMatching(prefix, nameOf, dir, name);
      var paths, indices := PathsNamed(prefix, nameOf, dir, name), Matching(prefix, nameOf, name);
      var hit := nameOf(listing[last]) == name;
      var paths', indices' := paths + (if hit then [dir + listing[last]] else []), indices + (if hit then [last] else []);
      assert PathsNamed(listing, nameOf, dir, name) == paths';
      assert Matching(listing, nameOf, name) == indices';
      forall m | 0 <= m < |paths'| ensures paths'[m] == dir + listing[indices'[m]] {
        if m < |paths| {
          assert paths'[m] == paths[m] && indices'[m] == indices[m];
          assert prefix[indices[m]] == listing[indices[m]];
        }
      }
    }
  }

  /** Every listed file's path is filed under that file's page name. */
  lemma EveryFileFiled(listing: seq<string>, nameOf: string -> string, dir: string)
    ensures forall i :: 0 <= i < |listing| ==> dir + listing[i] in PathsNamed(listing, nameOf, dir, nameOf(listing[i]))
  {
    forall i | 0 <= i < |listing| ensures dir + listing[i] in PathsNamed(listing, nameOf, dir, nameOf(listing[i])) {
      var name := nameOf(listing[i]);
      PathsFollowMatching(listing, nameOf, dir, name);
      var indices := Matching(listing, nameOf, name);
      var m :| 0 <= m < |indices| && indices[m] == i;
      assert PathsNamed(listing, nameOf, dir, name)[m] == dir + listing[i];
    }
  }

  /** A listing yields at most one page name per file. */
  lemma {:induction false} NamesBound(listing: seq<string>, nameOf: string -> string)
    ensures |PageNames(listing, nameOf)| <= |listing|
  {
    if listing != [] {
      var last := |listing| - 1;
      assert listing == listing[..last] + [listing[last]];
      AppendFile(listing[..last], listing[last], nameOf, "", "");
      NamesBound(listing[..last], nameOf);
    }
  }

  /** The keys of the discovered map are exactly the page names of the script and style files. */
  lemma DiscoveredKeys(scripts: seq<string>, scriptName: string -> string, styles: seq<string>, styleName: string -> string, name: string)
    ensures name in Discovered(scripts, scriptName, styles, styleName) <==>
              (exists i :: 0 <= i < |scripts| && scriptName(scripts[i]) == name) ||
              (exists i :: 0 <= i < |styles| && styleName(styles[i]) == name)
  {
    if exists i :: 0 <= i < |scripts| && scriptName(scripts[i]) == name {
      var i :| 0 <= i < |scripts| && scriptName(scripts[i]) == name;
      assert name in PageNames(scripts, scriptName);
    }
    if exists i :: 0 <= i < |styles| && styleName(styles[i]) == name {
      var i :| 0 <= i < |styles| && styleName(styles[i]) == name;
      assert name in PageNames(styles, styleName);
    }
  }

  /**
   * The list under a page name holds one path per file yielding that name:
   * first `./js/pages/<file>` for each matching script, then
   * `./scss/pages/<file>` for each matching style, each group in listing order
   * (the `Matching` indices are increasing and cover every matching file).
   */
  lemma {:induction false} DiscoveredList(scripts: seq<string>, scriptName: string -> string, styles: seq<string>, styleName: string -> string, name: string)
    requires name in Discovered(scripts, scriptName, styles, styleName)
    ensures var paths := Discovered(scripts, scriptName, styles, styleName)[name];
            var fromScripts := Matching(scripts, scriptName, name);
            var fromStyles := Matching(styles, styleName, name);
            && |paths| == |fromScripts| + |fromStyles|
            && (forall m :: 0 <= m < |fromScripts| ==> paths[m] == JsPagesDir + scripts[fromScripts[m]])
            && (forall m :: 0 <= m < |fromStyles| ==> paths[|fromScripts| + m] == ScssPagesDir + styles[fromStyles[m]])
  {
    var a := PathsNamed(scripts, scriptName, JsPagesDir, name);
    var b := PathsNamed(styles, styleName, ScssPagesDir, name);
    assert Discovered(scripts, scriptName, styles, styleName)[name] == a + b;
    PathsFollowMatching(scripts, scriptName, JsPagesDir, name);
    PathsFollowMatching(styles, styleName, ScssPagesDir, name);
    assert forall m :: 0 <= m < |a| ==> (a + b)[m] == a[m];
    assert forall m :: 0 <= m < |b| ==> (a + b)[|a| + m] == b[m];
  }

  /** Both discovery extensions start with a '.' they never repeat, so neither overlaps itself. */
  lemma DiscoveryExtensionsBorderless()
    ensures Borderless(JsExt) && Borderless(ScssExt)
  {
    LeadingUniqueIsBorderless(JsExt);
    LeadingUniqueIsBorderless(ScssExt);
  }

  /** A script listing of one file and an empty style listing give one key with one path. */
  lemma OneScript(file: string)
    ensures PagesFiles([file], []) == map[ScriptPageName(file) := [JsPagesDir + file]]
  {
    var name := ScriptPageName(file);
    assert PageNames([file], ScriptPageName) == {name};
    assert PageNames([], StylePageName) == {};
    assert PathsNamed([], StylePageName, ScssPagesDir, name) == [];
    assert PathsNamed([file], ScriptPageName, JsPagesDir, name) == [JsPagesDir + file] by {
      assert [file][..0] == [];
    }
    var files := PagesFiles([file], []);
    assert files.Keys == {name};
    assert files[name] == [JsPagesDir + file];
  }

  /** An empty script listing and a style listing of one file give one key with one path. */
  lemma OneStyle(file: string)
    ensures PagesFiles([], [file]) == map[StylePageName(file) := [ScssPagesDir + file]]
  {
    var name := StylePageName(file);
    assert PageNames([file], StylePageName) == {name};
    assert PageNames([], ScriptPageName) == {};
    assert PathsNamed([], ScriptPageName, JsPagesDir, name) == [];
    assert PathsNamed([file], StylePageName, ScssPagesDir, name) == [ScssPagesDir + file] by {
      assert [file][..0] == [];
    }
    var files := PagesFiles([], [file]);
    assert files.Keys == {name};
    assert files[name] == [ScssPagesDir + file];
  }
}
