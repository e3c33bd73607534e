/** The provider-script generator: a fixed table from lower-case provider
    names to script generators, a case-insensitive lookup, and a boundary that
    turns the call of a missing generator into the empty string. */
module ProviderScripts {

  datatype Option<T> = None | Some(value: T)

  // ---------------------------------------------------------------------------
  // ASCII lower-casing (the model of String.prototype.toLowerCase)
  // ---------------------------------------------------------------------------

  predicate IsUpper(c: char) { 'A' <= c <= 'Z' }

  function LowerChar(c: char): char
  {
    if IsUpper(c) then (c as int + 32) as char else c
  }

  /** True when no character of `s` is an upper-case ASCII letter. */
  predicate IsLower(s: string)
  {
    forall i :: 0 <= i < |s| ==> !IsUpper(s[i])
  }

  /** Lower-cases `s` one character at a time. */
  function Lower(s: string): (r: string)
    ensures |r| == |s|
    ensures forall i :: 0 <= i < |s| ==> r[i] == LowerChar(s[i])
    ensures IsLower(r)
  {
    if s == [] then [] else [LowerChar(s[0])] + Lower(s[1..])
  }

  /** A string that is already lower case is left unchanged. */
  lemma {:induction false} LowerOfLower(s: string)
    requires IsLower(s)
    ensures Lower(s) == s
  {
    if s != [] {
      assert IsLower(s[1..]) by {
        forall i | 0 <= i < |s[1..]| ensures !IsUpper(s[1..][i]) {
          assert s[1..][i] == s[i + 1];
        }
      }
      LowerOfLower(s[1..]);
    }
  }

  /** Lower-casing twice is lower-casing once. */
  lemma LowerIdempotent(s: string)
    ensures Lower(Lower(s)) == Lower(s)
  {
    LowerOfLower(Lower(s));
  }

  // ---------------------------------------------------------------------------
  // The provider table
  // ---------------------------------------------------------------------------

  /** A generator of the table: either a vendor template, which splices its
      one argument between a fixed prefix and a fixed suffix, or the
      pass-through generator of the "custom" entry. */
  datatype Generator = Template(prefix: string, suffix: string) | PassThrough

  const HelpScoutPrefix: string := "!function(e,t,n){function a(){var e=t.getElementsByTagName(\"script\")[0],n=t.createElement(\"script\");n.type=\"text/javascript\",n.async=!0,n.src=\"https://beacon-v2.helpscout.net\",e.parentNode.insertBefore(n,e)}if(e.Beacon=n=function(t,n,a){e.Beacon.readyQueue.push({method:t,options:n,data:a})},n.readyQueue=[],\"complete\"===t.readyState)return a();e.attachEvent?e.attachEvent(\"onload\",a):e.addEventListener(\"load\",a,!1)}(window,document,window.Beacon||function(){});\n      window.Beacon('init', '"
  const HelpScoutSuffix: string := "');\n    "

  const ClarityPrefix: string := "\n      (function(c,l,a,r,i,t,y){\n        c[a]=c[a]||function(){(c[a].q=c[a].q||[]).push(arguments)};\n        t=l.createElement(r);t.async=1;t.src=\"https://www.clarity.ms/tag/\"+i;\n        y=l.getElementsByTagName(r)[0];y.parentNode.insertBefore(t,y);\n      })(window, document, \"clarity\", \"script\", \""
  const ClaritySuffix: string := "\");\n    "

  const ProProfsPrefix: string := "\n      (function(){\n        var pp=document.createElement('script'), ppr=document.getElementsByTagName('script')[0];\n        stid='"
  const ProProfsSuffix: string := "';pp.type='text/javascript'; pp.async=true; \n        pp.src=('https:' == document.location.protocol ? 'https://' : 'http://') + 's01.live2support.com/dashboardv2/chatwindow/';\n        ppr.parentNode.insertBefore(pp, ppr);\n      })();\n    "

  /** The table of generators, keyed by lower-case provider name. */
  const Catalog: map<string, Generator> := map[
    "helpscout" := Template(HelpScoutPrefix, HelpScoutSuffix),
    "clarityms" := Template(ClarityPrefix, ClaritySuffix),
    "proprofs_livechat" := Template(ProProfsPrefix, ProProfsSuffix),
    "custom" := PassThrough
  ]

  /** True when `t` occurs in `s` as a contiguous block. */
  predicate Contains(s: string, t: string)
  {
    exists i, j :: 0 <= i <= j <= |s| && s[i..j] == t
  }

  /** Runs one generator on its argument. A template result holds the
      argument verbatim right after the prefix; the custom generator returns
      its argument unchanged (its syntax check only writes to the log). */
  function Apply(g: Generator, input: string): (r: string)
    ensures g.Template? ==> |r| == |g.prefix| + |input| + |g.suffix|
    ensures g.Template? ==> r[..|g.prefix|] == g.prefix
    ensures g.Template? ==> r[|g.prefix|..|g.prefix| + |input|] == input
    ensures g.Template? ==> r[|g.prefix| + |input|..] == g.suffix
    ensures g.PassThrough? ==> r == input
  {
    match g
    case Template(prefix, suffix) => prefix + input + suffix
    case PassThrough => input
  }

  /** Looks `key` up in the table and calls the generator found. `None`
      stands for the error thrown by calling an undefined generator. */
  function Invoke(key: string, input: string): Option<string>
  {
    if key in Catalog then Some(Apply(Catalog[key], input)) else None
  }

  /** The entry point: lower-case the provider name, invoke its generator,
      and map a failed invocation to the empty string. Never fails: a name
      outside the table gives "", the custom entry gives its text back, and
      a vendor entry gives a script holding the id verbatim. */
  function GetProviderScript(providerName: string, projectIdOrScript: string): (r: string)
    ensures Lower(providerName) !in Catalog ==> r == ""
    ensures Lower(providerName) == "custom" ==> r == projectIdOrScript
    ensures Lower(providerName) in Catalog && Catalog[Lower(providerName)].Template? ==>
              |r| == |Catalog[Lower(providerName)].prefix| + |projectIdOrScript| + |Catalog[Lower(providerName)].suffix| &&
              Contains(r, projectIdOrScript)
  {
    var key := Lower(providerName);
    var r := match Invoke(key, projectIdOrScript)
      case Some(script) => script
      case None => "";
    assert key in Catalog && Catalog[key].Template? ==>
      r[|Catalog[key].prefix|..|Catalog[key].prefix| + |projectIdOrScript|] == projectIdOrScript;
    r
  }

  // ---------------------------------------------------------------------------
  // Properties
  // ---------------------------------------------------------------------------

  /** The table holds exactly the four lower-case keys. */
  lemma CatalogKeys()
    ensures Catalog.Keys == {"helpscout", "clarityms", "proprofs_livechat", "custom"}
  {
  }

  lemma CatalogSize()
    ensures |Catalog| == 4
  {
    CatalogKeys();
  }

  lemma CatalogLower()
    ensures forall k :: k in Catalog ==> IsLower(k)
  {
    CatalogKeys();
  }

  /** The result depends on the provider name only through its lower-case
      form: names that agree after lower-casing give the same script. */
  lemma CaseInsensitive(providerName: string, input: string)
    ensures GetProviderScript(providerName, input) == GetProviderScript(Lower(providerName), input)
  {
    LowerIdempotent(providerName);
  }

  lemma SameLowerSameScript(a: string, b: string, input: string)
    requires Lower(a) == Lower(b)
    ensures GetProviderScript(a, input) == GetProviderScript(b, input)
  {
  }

  lemma HelpScoutCaseExample()
    ensures GetProviderScript("HelpScout", "42") == GetProviderScript("helpscout", "42")
  {
    assert Lower("HelpScout") == "helpscout";
    CaseInsensitive("HelpScout", "42");
  }

  /** The custom entry returns its argument unchanged, whatever text it is. */
  lemma CustomReturnsInput(providerName: string, script: string)
    requires Lower(providerName) == "custom"
    ensures GetProviderScript(providerName, script) == script
  {
  }

  /** A name outside the table yields the empty string, and the empty string
      comes back only for such a name or for an empty custom script. */
  lemma EmptyScript(providerName: string, input: string)
    ensures GetProviderScript(providerName, input) == "" <==>
            Lower(providerName) !in Catalog || (Lower(providerName) == "custom" && input == "")
  {
    var key := Lower(providerName);
    if key in Catalog && Catalog[key].Template? {
      var r := GetProviderScript(providerName, input);
      assert |r| >= |Catalog[key].prefix| > 0 by { CatalogKeys(); }
    }
  }

  lemma UnsupportedIsEmpty(providerName: string, input: string)
    requires Lower(providerName) !in {"helpscout", "clarityms", "proprofs_livechat", "custom"}
    ensures GetProviderScript(providerName, input) == ""
  {
    CatalogKeys();
  }

  /** A vendor script is its prefix, the id verbatim, and its suffix, so the
      id occurs in it and its length is the template's plus the id's. */
  lemma {:induction false} VendorScript(providerName: string, id: string)
    requires Lower(providerName) in Catalog && Catalog[Lower(providerName)].Template?
    ensures var g := Catalog[Lower(providerName)];
            var r := GetProviderScript(providerName, id);
            r == g.prefix + id + g.suffix &&
            |r| == |g.prefix| + |id| + |g.suffix| &&
            Contains(r, id)
  {
    var g := Catalog[Lower(providerName)];
    var r := GetProviderScript(providerName, id);
    assert r[|g.prefix|..|g.prefix| + |id|] == id;
  }

  lemma HelpScoutScript(providerName: string, id: string)
    requires Lower(providerName) == "helpscout"
    ensures GetProviderScript(providerName, id) == HelpScoutPrefix + id + HelpScoutSuffix
    ensures Contains(GetProviderScript(providerName, id), id)
    ensures |GetProviderScript(providerName, id)| == |HelpScoutPrefix| + |id| + |HelpScoutSuffix|
  {
    VendorScript(providerName, id);
  }

  lemma ClarityScript(providerName: string, id: string)
    requires Lower(providerName) == "clarityms"
    ensures GetProviderScript(providerName, id) == ClarityPrefix + id + ClaritySuffix
    ensures Contains(GetProviderScript(providerName, id), id)
    ensures |GetProviderScript(providerName, id)| == |ClarityPrefix| + |id| + |ClaritySuffix|
  {
    VendorScript(providerName, id);
  }

  lemma ProProfsScript(providerName: string, id: string)
    requires Lower(providerName) == "proprofs_livechat"
    ensures GetProviderScript(providerName, id) == ProProfsPrefix + id + ProProfsSuffix
    ensures Contains(GetProviderScript(providerName, id), id)
    ensures |GetProviderScript(providerName, id)| == |ProProfsPrefix| + |id| + |ProProfsSuffix|
  {
    VendorScript(providerName, id);
  }

  /** A vendor script determines the id it was made from. */
  lemma {:induction false} VendorIdRecoverable(providerName: string, id1: string, id2: string)
    requires Lower(providerName) in Catalog && Catalog[Lower(providerName)].Template?
    requires GetProviderScript(providerName, id1) == GetProviderScript(providerName, id2)
    ensures id1 == id2
  {
    var g := Catalog[Lower(providerName)];
    var r := GetProviderScript(providerName, id1);
    assert r[|g.prefix|..|g.prefix| + |id1|] == id1;
    assert r[|g.prefix|..|g.prefix| + |id2|] == id2;
  }
}
