# Page-asset resolver of a webpack configuration

This project models the one piece of logic that `webpack.config.js` computes
itself: the page-asset resolver of a multi-page static site. Given the three
directory listings it reads (`./src/js/pages`, `./src/scss/pages`,
`./src/pug/pages`), taken here as input sequences of file names in listing
order, it builds:

- the entry map of `getPagesFiles`: each page name maps to the ordered list of
  its source paths, script paths first, then style paths (`page_files.dfy`,
  module `PageFiles`);
- the `entry` object: a fixed `app` entry for `./js/app.js`, followed by the
  spread of the discovered entries (`entries.dfy`, module `Entries`);
- the render jobs of `getPagesHtmlFiles`: one per template, with the template
  path, the output `<name>.html` and the template parameters `rawFilename`,
  `jsFilename` (from `addJs`) and `cssFilename` (from `addCss`)
  (`html_pages.dfy`, module `HtmlPages`).

A page name is the file name with the FIRST occurrence of `.js`, `.scss` or
`.pug` removed, anywhere in the name, as `String.prototype.replace` does with a
string pattern (`strings.dfy`, module `Strings`, `ReplaceFirst`). It is not
a suffix strip. `getPagesFiles` updates a dictionary inside two loops, so it
is a method with loop invariants. Each loop is one call of `FileListing`,
which takes the naming rule of its listing as a parameter. The two calls
together are proved equal to the declarative map `Discovered`, for any pair
of naming rules. `PagesFiles` is that map under the source's rules: `.js`
removed from script names and `.scss` from style names. The key and list
properties (`DiscoveredKeys`, `DiscoveredList`) are likewise proved for any
naming rules, so they hold for `PagesFiles` in particular. The rest of the
resolver is pure and is modelled as functions.

The model follows the code as written. Points a reader may not expect:

- An extension is removed where it first occurs in the name, which need
  not be the end. A template `a.jsx.pug` has page name `a.jsx`, but its
  script `a.jsx.js` is filed under `ax.js` (`HtmlPages.InnerJsPageHasNoEntry`).
- `addCss` accepts `<name>.sass`, but discovery strips only `.scss`. A page
  styled only by `about.sass` links a `cssFilename` of `about`, which is
  not a key of the entry object (`HtmlPages.SassOnlyPageHasNoEntry`). So
  the resolved bundle names are entry keys only under the conditions of
  `HtmlPages.AddJsIsEntry` and `HtmlPages.AddCssIsEntry`.
- The key `app` is always present, but its value is not always
  `./js/app.js`. A discovered page named `app` replaces it through the
  object spread (`Entries.AppPageReplacesSharedScript`).
- Listings are used in the order they are given, without sorting.

Every operation is a function of its inputs, so running discovery twice on the
same listings gives the same entry map and the same jobs.

## Model

| member | source | states |
|---|---|---|
| Strings.IndexFromFindsFirst | webpack.config.js:139 | A search from a position returns the leftmost occurrence at or after it, or -1 when there is none there. |
| Strings.IndexOfFindsFirst | webpack.config.js:139 | `indexOf` is -1 exactly when the pattern does not occur. Otherwise it is an occurrence with none before it. |
| Strings.ReplaceFirstReplacesFirst | webpack.config.js:139 | `replace` with a string pattern leaves a string without the pattern unchanged. Otherwise it replaces exactly the leftmost occurrence. |
| Strings.ReplaceFirst | webpack.config.js:139 | `replace` with a string pattern returns the string unchanged when the pattern is absent. Otherwise its length changes by `|rep| - |pat|`; `ReplaceFirstReplacesFirst` states that the leftmost occurrence is the one replaced. |
| Strings.LeadingUniqueIsBorderless | webpack.config.js:149 | A pattern whose first character never recurs in it has no proper prefix equal to a suffix. |
| Strings.NoLeadNoOccurrence | webpack.config.js:163 | A pattern cannot occur in a string that lacks its first character. |
| Strings.ReplaceFirstOfAppended | webpack.config.js:139 | Removing a self-non-overlapping pattern from `n + pat` gives back `n` when `pat` does not occur in `n`. |
| Strings.ReplaceFirstOfSuffixed | webpack.config.js:139 | A string that ends with a self-non-overlapping pattern, and holds no other occurrence before it, loses exactly that ending. |
| PageFiles.DiscoveryExtensionsBorderless | webpack.config.js:139-149 | Neither `.js` nor `.scss` has a proper prefix that is also a suffix. |
| PageFiles.PageName | webpack.config.js:139 | `file.replace(ext, '')`. A file without the extension keeps its name. A file `<n><ext>`, for a self-non-overlapping `ext` that `<n>` lacks, is named `<n>`. |
| PageFiles.ScriptPageName | webpack.config.js:139 | A script without `.js` keeps its name. A script `<n>.js`, where `<n>` holds no `.js`, is named `<n>`. |
| PageFiles.StylePageName | webpack.config.js:149 | A style without `.scss` keeps its name. A style `<n>.scss`, where `<n>` holds no `.scss`, is named `<n>`. |
| PageFiles.ScriptOfName | webpack.config.js:139 | The script `<n>.js` is filed under `<n>` when `<n>` holds no `.js`. |
| PageFiles.StyleOfName | webpack.config.js:149 | The style `<n>.scss` is filed under `<n>` when `<n>` holds no `.scss`. |
| PageFiles.Matching | webpack.config.js:138-156 | Gives the indices of the files that yield a name. They are strictly increasing, each names a matching file, and every matching file is included. |
| PageFiles.PathsNamed | webpack.config.js:138-156 | The paths filed under one name number at most the files of the listing. Their exact content is `PathsFollowMatching`. |
| PageFiles.Discovered | webpack.config.js:135-159 | The declarative result of the two passes, for any naming rules. Every script is filed as `./js/pages/<file>` and every style as `./scss/pages/<file>`, under the file's own page name. |
| PageFiles.PagesFiles | webpack.config.js:135-159 | The value `getPagesFiles` returns. Every listed script and style has its path in the list under its page name. |
| PageFiles.Appended | webpack.config.js:138-146 | The map after one pass over a listing. It keeps every key it started with, and each existing list is only extended, never rewritten. |
| PageFiles.FileListing | webpack.config.js:138-146 | One `forEach` pass: starting from a map, every file of the listing is filed, in order, under its page name, creating the list when absent. The result equals `Appended` of the map and the listing. |
| PageFiles.GetPagesFiles | webpack.config.js:135-159 | Filing the scripts into an empty map and then the styles gives exactly the declarative map `PagesFiles`. |
| PageFiles.AppendFile | webpack.config.js:145 | Appending a file adds its page name and appends its path under that name only. |
| PageFiles.FileStep | webpack.config.js:139-145 | One iteration files `dir + file` under the file's page name, after any paths already there, creating the list when absent; no other key changes. |
| PageFiles.FileStepKeys | webpack.config.js:141-143 | One iteration adds the file's page name to the keys and no other key. |
| PageFiles.FileStepAt | webpack.config.js:141-145 | The same step, read at one key: its list gains the path exactly when the file yields that key. |
| PageFiles.TwoPasses | webpack.config.js:135-158 | For any two naming rules, the script pass followed by the style pass gives the `Discovered` map. |
| PageFiles.TwoPassesAt | webpack.config.js:148-156 | After the style pass, a name's list is its script paths followed by its style paths. |
| PageFiles.PathsNamedEmpty | webpack.config.js:141-143 | A name that no listed file yields has an empty path list. |
| PageFiles.PathsFollowMatching | webpack.config.js:155 | The paths under a name are `dir + file` for exactly the matching files, in listing order. |
| PageFiles.EveryFileFiled | webpack.config.js:138-145 | Every file of a listing has its path in the list under its own page name. |
| PageFiles.NamesBound | webpack.config.js:138-156 | A listing yields at most one page name per file. |
| PageFiles.DiscoveredKeys | webpack.config.js:136-158 | A name is a key exactly when some script or style file yields it. |
| PageFiles.DiscoveredList | webpack.config.js:138-156 | A key's list holds one path per matching file. It lists every matching `./js/pages/<file>` first, then every matching `./scss/pages/<file>`, and each group keeps listing order. |
| PageFiles.OneScript | webpack.config.js:138-146 | A single script file gives a single key holding its one path. |
| PageFiles.OneStyle | webpack.config.js:148-156 | A single style file gives a single key holding its one path. |
| Entries.Entry | webpack.config.js:123-126 | The keys are the discovered keys plus `app`. Under `app` is `./js/app.js`, unless discovery produced `app`, whose list then wins. Every other discovered key keeps its list. |
| Entries.BuildEntry | webpack.config.js:123-126 | The entry object always has `app`, and each other key comes from discovery. |
| Entries.AppPageReplacesSharedScript | webpack.config.js:124-125 | A script `app.js` replaces the shared `./js/app.js` entry with `./js/pages/app.js`. |
| HtmlPages.AddJs | webpack.config.js:178-180 | Gives the page's own name when `<name>.js` is listed, `app` otherwise. |
| HtmlPages.AddCss | webpack.config.js:182-185 | Gives the page's own name when `<name>.scss` or `<name>.sass` is listed, `app` otherwise. |
| HtmlPages.PageJob | webpack.config.js:163-174 | The job for one template renders `./pug/pages/<item>` to `<name>.html`, where `<name>` is its `rawFilename`. Each linked bundle is either that name or `app`. |
| HtmlPages.PagesHtmlFiles | webpack.config.js:161-176 | Yields one job per template, in listing order. Each job has template `./pug/pages/<item>`, output `<name>.html`, `rawFilename` `<name>`, and the `addJs` and `addCss` results for `<name>`. |
| HtmlPages.PugExtBorderless | webpack.config.js:163 | `.pug` does not overlap itself. |
| HtmlPages.JobOfSuffixedTemplate | webpack.config.js:163-169 | A template `<name>.pug` whose name has no other `.pug` renders to `<name>.html` as page `<name>`. |
| HtmlPages.PlainTemplateJob | webpack.config.js:162-174 | A template `<name>.pug` with no '.' in the name gets exactly the job built from `<name>`. |
| HtmlPages.AddJsIsEntry | webpack.config.js:179 | If the name holds no `.js`, the resolved script bundle is a key of the entry object. |
| HtmlPages.AddCssIsEntry | webpack.config.js:184 | If the name holds no `.scss` and is not styled only by `.sass`, the resolved style bundle is a key of the entry object. |
| HtmlPages.JobBundlesAreEntries | webpack.config.js:168-172 | Under those conditions, both bundles a job links are keys of the entry object. |
| HtmlPages.SassOnlyPageHasNoEntry | webpack.config.js:184 | With only `about.sass`, `addCss("about")` is `about`, but `about` is not an entry key. |
| HtmlPages.SassStyleName | webpack.config.js:149 | The style `about.sass` holds no `.scss`, so it is filed under its full name `about.sass`. |
| HtmlPages.InnerJsPageHasNoEntry | webpack.config.js:179 | The template `a.jsx.pug` is page `a.jsx`, and the script `a.jsx.js` is filed under `ax.js`. So `addJs("a.jsx")` is `a.jsx`, which is not a key of the entry object. |
| HtmlPages.InnerJsScriptName | webpack.config.js:139 | The script `a.jsx.js` first holds `.js` at index 1, so it is filed under `ax.js`. |
| HtmlPages.InnerJsTemplateName | webpack.config.js:163 | The template `a.jsx.pug` holds `.pug` only at its end, so its page name is `a.jsx`. |
| HtmlPages.ScenarioOneScript | webpack.config.js:123-185 | For dot-free page names `home` and `about` (`home` not `app`), templates `home.pug` and `about.pug` and the single script `home.js`: the entry object is exactly `{app: ./js/app.js, home: [./js/pages/home.js]}`. `home` links its own script and `app` for style. `about` links `app` for both. |
| HtmlPages.ScenarioOneStyle | webpack.config.js:123-185 | For a dot-free page name `contact` (not `app`), template `contact.pug` and the single style `contact.scss`: the entry object is exactly `{app: ./js/app.js, contact: [./scss/pages/contact.scss]}`, and the page links `app` for script and `contact` for style. |
| HtmlPages.ScenarioNoAssets | webpack.config.js:123-185 | With empty script and style listings, the entry object is exactly `{app: ./js/app.js}`, and a template `index.pug` links `app` for both. |
| HtmlPages.OneScriptEntry | webpack.config.js:123-126 | A single script `<home>.js`, where `<home>` is not `app` and holds no `.js`, gives the entry object `{app: ./js/app.js, <home>: [./js/pages/<home>.js]}`. |
| HtmlPages.OneStyleEntry | webpack.config.js:123-126 | A single style `<contact>.scss`, where `<contact>` is not `app` and holds no `.scss`, gives the entry object `{app: ./js/app.js, <contact>: [./scss/pages/<contact>.scss]}`. |

## Left out

- `fs.readdirSync`, including the error raised when a directory is missing. The three listings are input sequences, and the model has no filesystem.
- `addJs` and `addCss` read the listing again on every call. The model passes in one snapshot per directory, so it does not cover a directory that changes during the build.
- All plugin and loader wiring is left out: `CleanWebpackPlugin`, `CopyWebpackPlugin`, `MiniCssExtractPlugin`, loader rules, `devServer`, `output`, `resolveLoader`, `mode`, `context` and `target`. This is declarative configuration of external tools.
- Only the job parameters of the `HtmlWebpackPlugin` object are modelled. `inject: false` is a constant option of the external plugin.
- `path.resolve` and `__dirname` are left out. Their results are never inspected by the resolver.
- `addDevServer` is left out. It only chooses whether to add an external plugin.
- `filesObj` is modelled as a plain map. JavaScript prototype properties of it are not modelled: a page named after an `Object.prototype` member (`constructor`, `toString`, `hasOwnProperty`, `__proto__`, ...) sees an inherited value at webpack.config.js:141, so no list is created, and the `push` at webpack.config.js:145 then throws, ending the build.
- The key order of JavaScript objects is not modelled. Entry maps are unordered `map`s.
- The replacement argument of `String.prototype.replace` is not modelled beyond plain text. `$` patterns in it are not interpreted, and the source only passes the empty string.
- Strings are sequences of characters. There is no Unicode normalisation.
