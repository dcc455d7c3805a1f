/**
 * The `entry` object of the configuration: a fixed `app` entry for the
 * shared script, followed by the spread of the discovered page entries, so
 * that a discovered key overrides a fixed one.
 */
module Entries {
  import opened Strings
  import opened PageFiles

  /** The shared bundle, used as the fallback for every page. */
  const AppBundle := "app"
  const AppScript := "./js/app.js"

  /** A bundle's sources: the fixed entry is a single path, a discovered one a list of paths. */
  datatype EntryPoint = Path(path: string) | Paths(paths: seq<string>)

  /** `{ app: './js/app.js', ...pages }` */
  function Entry(pages: map<string, seq<string>>): (entry: map<string, EntryPoint>)
    ensures entry.Keys == pages.Keys + {AppBundle}
    ensures entry[AppBundle] == if AppBundle in pages then Paths(pages[AppBundle]) else Path(AppScript)
    ensures forall name :: name in pages ==> entry[name] == Paths(pages[name])
  {
    map[AppBundle := Path(AppScript)] + map name | name in pages :: Paths(pages[name])
  }

  /** The entry object built from the script and style listings. */
  function BuildEntry(scripts: seq<string>, styles: seq<string>): (entry: map<string, EntryPoint>)
    ensures AppBundle in entry
    ensures forall name :: name in entry && name != AppBundle ==> name in PagesFiles(scripts, styles)
  {
    Entry(PagesFiles(scripts, styles))
  }

  /** A script page named `app` replaces the shared `./js/app.js` entry rather than adding to it. */
  lemma AppPageReplacesSharedScript()
    ensures BuildEntry([AppBundle + JsExt], [])[AppBundle] == Paths([JsPagesDir + AppBundle + JsExt])
  {
    assert !Occurs(AppBundle, JsExt) by { assert AppBundle[0] != JsExt[0]; }
    ScriptOfName(AppBundle);
    var file := AppBundle + JsExt;
    OneScript(file);
    assert PagesFiles([file], []) == map[AppBundle := [JsPagesDir + file]];
    assert JsPagesDir + file == JsPagesDir + AppBundle + JsExt;
  }
}
