/**
 * Per-page HTML output (`getPagesHtmlFiles`, `addJs`, `addCss`): one render
 * job per template file, naming the script and style bundles the page links,
 * each the page's own bundle when a matching file is listed and the shared
 * `app` bundle otherwise.
 */
module HtmlPages {
  import opened Strings
  import opened PageFiles
  import opened Entries

  const PugExt := ".pug"
  const SassExt := ".sass"
  const HtmlExt := ".html"
  const PugPagesDir := "./pug/pages/"

  /** The parameters a page template is rendered with. */
  datatype TemplateParameters = TemplateParameters(rawFilename: string, jsFilename: string, cssFilename: string)

  /** One HTML page to emit: the template it is rendered from and the output file name. */
  datatype RenderJob = RenderJob(template: string, filename: string, templateParameters: TemplateParameters)

  /** `addJs`: the page's own script bundle when `<name>.js` is listed, else the shared bundle. */
  function AddJs(name: string, scripts: seq<string>): (bundle: string)
    ensures name + JsExt in scripts ==> bundle == name
    ensures name + JsExt !in scripts ==> bundle == AppBundle
  {
    if name + JsExt in scripts then name else AppBundle
  }

  /** `addCss`: the page's own style bundle when `<name>.scss` or `<name>.sass` is listed, else the shared bundle. */
  function AddCss(name: string, styles: seq<string>): (bundle: string)
    ensures name + ScssExt in styles || name + SassExt in styles ==> bundle == name
    ensures name + ScssExt !in styles && name + SassExt !in styles ==> bundle == AppBundle
  {
    if name + ScssExt in styles || name + SassExt in styles then name else AppBundle
  }

  /**
   * The render job of one template file: it renders the template itself to
   * `<name>.html`, and each bundle it links is the page's own or `app`.
   */
  function PageJob(item: string, scripts: seq<string>, styles: seq<string>): (job: RenderJob)
    ensures job.template == PugPagesDir + item
    ensures job.filename == job.templateParameters.rawFilename + HtmlExt
    ensures job.templateParameters.jsFilename in {job.templateParameters.rawFilename, AppBundle}
    ensures job.templateParameters.cssFilename in {job.templateParameters.rawFilename, AppBundle}
  {
    var itemName := PageName(item, PugExt);
    RenderJob(PugPagesDir + item, itemName + HtmlExt,
              TemplateParameters(itemName, AddJs(itemName, scripts), AddCss(itemName, styles)))
  }

  /**
   * `getPagesHtmlFiles`: the template listing mapped, in order, to render
   * jobs; each job renders `./pug/pages/<item>` to `<name>.html`, where
   * `<name>` is the item with its first `.pug` removed.
   */
  function PagesHtmlFiles(templates: seq<string>, scripts: seq<string>, styles: seq<string>): (jobs: seq<RenderJob>)
    ensures |jobs| == |templates|
    ensures forall i :: 0 <= i < |templates| ==>
              var name := PageName(templates[i], PugExt);
              && jobs[i].template == PugPagesDir + templates[i]
              && jobs[i].filename == name + HtmlExt
              && jobs[i].templateParameters.rawFilename == name
              && jobs[i].templateParameters.jsFilename == AddJs(name, scripts)
              && jobs[i].templateParameters.cssFilename == AddCss(name, styles)
  {
    if templates == [] then []
    else [PageJob(templates[0], scripts, styles)] + PagesHtmlFiles(templates[1..], scripts, styles)
  }

  /** The template extension starts with a '.' it never repeats, so it does not overlap itself. */
  lemma PugExtBorderless()
    ensures Borderless(PugExt)
  {
    LeadingUniqueIsBorderless(PugExt);
  }

  /** A template `<name>.pug` whose name holds no other `.pug` renders to `<name>.html` as page `<name>`. */
  lemma JobOfSuffixedTemplate(templates: seq<string>, scripts: seq<string>, styles: seq<string>, i: int, name: string)
    requires 0 <= i < |templates| && templates[i] == name + PugExt
    requires !Occurs(name, PugExt)
    ensures var job := PagesHtmlFiles(templates, scripts, styles)[i];
            job.filename == name + HtmlExt && job.templateParameters.rawFilename == name
  {
    PugExtBorderless();
    ReplaceFirstOfAppended(name, PugExt);
  }

  /**
   * The script bundle `addJs` resolves is a key of the entry object, provided
   * the page name holds no `.js` of its own: either the shared `app` entry,
   * or the page entry that `<name>.js` was filed under.
   */
  lemma AddJsIsEntry(name: string, scripts: seq<string>, styles: seq<string>)
    requires !Occurs(name, JsExt)
    ensures AddJs(name, scripts) in BuildEntry(scripts, styles)
  {
    if name + JsExt in scripts {
      DiscoveryExtensionsBorderless();
      ReplaceFirstOfAppended(name, JsExt);
      assert name in PageNames(scripts, ScriptPageName);
    }
  }

  /**
   * The style bundle `addCss` resolves is a key of the entry object, provided
   * the page name holds no `.scss` of its own and the page's style is not
   * listed only as `<name>.sass` (discovery strips `.scss` only).
   */
  lemma AddCssIsEntry(name: string, scripts: seq<string>, styles: seq<string>)
    requires !Occurs(name, ScssExt)
    requires name + SassExt in styles ==> name + ScssExt in styles
    ensures AddCss(name, styles) in BuildEntry(scripts, styles)
  {
    if name + ScssExt in styles {
      DiscoveryExtensionsBorderless();
      ReplaceFirstOfAppended(name, ScssExt);
      assert name in PageNames(styles, StylePageName);
    }
  }

  /** Every render job links bundles that the entry object defines, under the conditions of `AddJsIsEntry` and `AddCssIsEntry`. */
  lemma JobBundlesAreEntries(templates: seq<string>, scripts: seq<string>, styles: seq<string>, i: int)
    requires 0 <= i < |templates|
    requires var name := PageName(templates[i], PugExt);
             && !Occurs(name, JsExt) && !Occurs(name, ScssExt)
             && (name + SassExt in styles ==> name + ScssExt in styles)
    ensures var params := PagesHtmlFiles(templates, scripts, styles)[i].templateParameters;
            var entry := BuildEntry(scripts, styles);
            params.jsFilename in entry && params.cssFilename in entry
  {
    var name := PageName(templates[i], PugExt);
    AddJsIsEntry(name, scripts, styles);
    AddCssIsEntry(name, scripts, styles);
  }

  /** A page styled only by `<name>.sass` links a style bundle that the entry object lacks. */
  lemma SassOnlyPageHasNoEntry()
    ensures AddCss("about", ["about.sass"]) == "about"
    ensures "about" !in BuildEntry([], ["about.sass"])
  {
    var file := "about.sass";
    assert file == "about" + SassExt;
    SassStyleName();
    OneStyle(file);
  }

  /** The style `about.sass` holds no `.scss`, so its page name is the whole file name. */
  lemma SassStyleName()
    ensures StylePageName("about.sass") == "about.sass"
  {
    var file := "about.sass";
    assert !Occurs(file, ScssExt) by {
      forall i ensures !OccursAt(file, ScssExt, i) {
        if 0 <= i && i + |ScssExt| <= |file| {
          assert file[i..i + |ScssExt|][2] != ScssExt[2];
        }
      }
    }
  }

  /**
   * A template `a.jsx.pug` is page `a.jsx`, but its script `a.jsx.js` loses
   * its first `.js` and is filed under `ax.js`, so the page links a script
   * bundle that the entry object lacks.
   */
  lemma InnerJsPageHasNoEntry()
    ensures PageName("a.jsx.pug", PugExt) == "a.jsx"
    ensures ScriptPageName("a.jsx.js") == "ax.js"
    ensures AddJs("a.jsx", ["a.jsx.js"]) == "a.jsx"
    ensures "a.jsx" !in BuildEntry(["a.jsx.js"], [])
  {
    InnerJsTemplateName();
    InnerJsScriptName();
    var file := "a.jsx.js";
    assert file == "a.jsx" + JsExt;
    OneScript(file);
    assert "ax.js"[1] != "a.jsx"[1];
  }

  /** The script `a.jsx.js` first holds `.js` at index 1, so its page name is `ax.js`. */
  lemma InnerJsScriptName()
    ensures ScriptPageName("a.jsx.js") == "ax.js"
  {
    var file := "a.jsx.js";
    assert OccursAt(file, JsExt, 1) by { assert file[1..4] == JsExt; }
    assert !OccursAt(file, JsExt, 0) by { assert file[0..3][0] != JsExt[0]; }
    assert FirstOccurrence(file, JsExt, 1);
    ReplaceFirstReplacesFirst(file, JsExt, "");
    assert ScriptPageName(file) == file[..1] + file[4..];
  }

  /** The template `a.jsx.pug` holds `.pug` only at its end, so its page name is `a.jsx`. */
  lemma InnerJsTemplateName()
    ensures PageName("a.jsx.pug", PugExt) == "a.jsx"
  {
    var page := "a.jsx";
    assert !Occurs(page, PugExt) by {
      forall i ensures !OccursAt(page, PugExt, i) {
        if 0 <= i && i + |PugExt| <= |page| {
          assert page[i..i + |PugExt|][1] != PugExt[1];
        }
      }
    }
    PugExtBorderless();
    assert "a.jsx.pug" == page + PugExt;
    ReplaceFirstOfAppended(page, PugExt);
  }

  /** The render job of a template `<name>.pug` whose name holds no '.'. */
  lemma PlainTemplateJob(name: string, scripts: seq<string>, styles: seq<string>)
    requires forall k :: 0 <= k < |name| ==> name[k] != '.'
    ensures PageJob(name + PugExt, scripts, styles)
         == RenderJob(PugPagesDir + name + PugExt, name + HtmlExt,
                      TemplateParameters(name, AddJs(name, scripts), AddCss(name, styles)))
  {
    NoLeadNoOccurrence(name, PugExt);
    PugExtBorderless();
    ReplaceFirstOfAppended(name, PugExt);
    assert PugPagesDir + (name + PugExt) == PugPagesDir + name + PugExt;
  }

  /**
   * Two templates `<home>.pug` and `<about>.pug`, the script `<home>.js` and
   * no styles: the entry object holds `app` and `<home>`; `<home>` links its
   * own script and the shared style, `<about>` the shared script and style.
   */
  lemma ScenarioOneScript(home: string, about: string)
    requires forall k :: 0 <= k < |home| ==> home[k] != '.'
    requires forall k :: 0 <= k < |about| ==> about[k] != '.'
    requires home != about && home != AppBundle
    ensures BuildEntry([home + JsExt], [])
         == map[AppBundle := Path(AppScript), home := Paths([JsPagesDir + home + JsExt])]
    ensures PagesHtmlFiles([home + PugExt, about + PugExt], [home + JsExt], [])
         == [RenderJob(PugPagesDir + home + PugExt, home + HtmlExt, TemplateParameters(home, home, AppBundle)),
             RenderJob(PugPagesDir + about + PugExt, about + HtmlExt, TemplateParameters(about, AppBundle, AppBundle))]
  {
    var script := home + JsExt;
    NoLeadNoOccurrence(home, JsExt);
    OneScriptEntry(home);
    var templates := [home + PugExt, about + PugExt];
    assert AddJs(about, [script]) == AppBundle by {
      assert (about + JsExt)[..|about|] == about;
      assert script[..|home|] == home;
    }
    assert PagesHtmlFiles(templates, [script], [])
        == [PageJob(templates[0], [script], []), PageJob(templates[1], [script], [])] by {
      assert templates[1..] == [about + PugExt];
      assert templates[1..][1..] == [];
    }
    PlainTemplateJob(home, [script], []);
    PlainTemplateJob(about, [script], []);
  }

  /** The entry object of the single script `<home>.js`, for a name `<home>` other than `app` that holds no `.js`. */
  lemma OneScriptEntry(home: string)
    requires !Occurs(home, JsExt) && home != AppBundle
    ensures BuildEntry([home + JsExt], [])
         == map[AppBundle := Path(AppScript), home := Paths([JsPagesDir + home + JsExt])]
  {
    var script := home + JsExt;
    ScriptOfName(home);
    OneScript(script);
    assert PagesFiles([script], []) == map[home := [JsPagesDir + script]];
    assert BuildEntry([script], []).Keys == {AppBundle, home};
    assert JsPagesDir + script == JsPagesDir + home + JsExt;
  }

  /**
   * One template `<contact>.pug`, no scripts and the style `<contact>.scss`:
   * the entry object holds `app` and `<contact>`; the page links the shared
   * script and its own style.
   */
  lemma ScenarioOneStyle(contact: string)
    requires forall k :: 0 <= k < |contact| ==> contact[k] != '.'
    requires contact != AppBundle
    ensures BuildEntry([], [contact + ScssExt])
         == map[AppBundle := Path(AppScript), contact := Paths([ScssPagesDir + contact + ScssExt])]
    ensures PagesHtmlFiles([contact + PugExt], [], [contact + ScssExt])
         == [RenderJob(PugPagesDir + contact + PugExt, contact + HtmlExt, TemplateParameters(contact, AppBundle, contact))]
  {
    var style := contact + ScssExt;
    NoLeadNoOccurrence(contact, ScssExt);
    OneStyleEntry(contact);
    assert [contact + PugExt][1..] == [];
    PlainTemplateJob(contact, [], [style]);
  }

  /** The entry object of the single style `<contact>.scss`, for a name `<contact>` other than `app` that holds no `.scss`. */
  lemma OneStyleEntry(contact: string)
    requires !Occurs(contact, ScssExt) && contact != AppBundle
    ensures BuildEntry([], [contact + ScssExt])
         == map[AppBundle := Path(AppScript), contact := Paths([ScssPagesDir + contact + ScssExt])]
  {
    var style := contact + ScssExt;
    StyleOfName(contact);
    OneStyle(style);
    assert PagesFiles([], [style]) == map[contact := [ScssPagesDir + style]];
    assert BuildEntry([], [style]).Keys == {AppBundle, contact};
    assert ScssPagesDir + style == ScssPagesDir + contact + ScssExt;
  }

  /** One template `<index>.pug` and empty script and style listings: only the `app` entry, linked for both. */
  lemma ScenarioNoAssets(index: string)
    requires forall k :: 0 <= k < |index| ==> index[k] != '.'
    ensures BuildEntry([], []) == map[AppBundle := Path(AppScript)]
    ensures PagesHtmlFiles([index + PugExt], [], [])
         == [RenderJob(PugPagesDir + index + PugExt, index + HtmlExt, TemplateParameters(index, AppBundle, AppBundle))]
  {
    assert PagesFiles([], []) == map[];
    assert [index + PugExt][1..] == [];
    PlainTemplateJob(index, [], []);
  }
}
