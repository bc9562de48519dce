/** The front half of a catalog sync: which entries of the upstream Git tree
    are skill documents, and how one document's front matter and body become
    the canonical skill fields (title, description, category, tags,
    compatibility, content). Front-matter parsing itself is not modelled:
    a document arrives as an already parsed map of loosely typed fields. */
module Normalizer {
  import opened Wrappers
  import opened Text

  /** The upstream repository and branch the sync reads. */
  const Repo := "ComposioHQ/awesome-claude-skills"
  const DefaultBranch := "master"

  /** The document marker, at the root and under a directory. */
  const MarkerFile := "SKILL.md"
  const MarkerSuffix := "/SKILL.md"

  /** The tag added next to the category when a document has no tag list. */
  const SyncTag := "claude-skill"

  /** The single client every synced skill is marked compatible with. */
  const SyncCompatibility := ["claude"]

  /** One entry of the recursive tree listing; `kind` is GitHub's `type`
      ("blob", "tree", "commit"). */
  datatype TreeNode = TreeNode(path: string, kind: string)

  /** The pattern `(^|/)SKILL\.md$`: the path is exactly the marker, or ends
      with a slash followed by the marker. */
  predicate IsSkillPath(p: string) {
    p == MarkerFile || EndsWith(p, MarkerSuffix)
  }

  predicate IsSkillBlob(n: TreeNode) {
    n.kind == "blob" && IsSkillPath(n.path)
  }

  /** The paths the sync scans: the skill blobs of the tree, in tree order. */
  function SkillPaths(nodes: seq<TreeNode>): (paths: seq<string>)
    ensures |paths| <= |nodes|
    ensures forall i :: 0 <= i < |paths| ==> IsSkillPath(paths[i])
    ensures forall i :: 0 <= i < |nodes| && IsSkillBlob(nodes[i]) ==> nodes[i].path in paths
    ensures forall p :: p in paths ==> exists i :: 0 <= i < |nodes| && IsSkillBlob(nodes[i]) && nodes[i].path == p
  {
    if |nodes| == 0 then []
    else
      var rest := SkillPaths(nodes[1..]);
      assert forall i :: 1 <= i < |nodes| ==> nodes[i] == nodes[1..][i - 1];
      (if IsSkillBlob(nodes[0]) then [nodes[0].path] else []) + rest
  }

  /** The filter keeps tree order: the scan of a concatenated listing is the
      concatenation of the scans. */
  lemma {:induction false} SkillPathsAppend(a: seq<TreeNode>, b: seq<TreeNode>)
    ensures SkillPaths(a + b) == SkillPaths(a) + SkillPaths(b)
    decreases |a|
  {
    if |a| == 0 {
      assert a + b == b;
    } else {
      assert (a + b)[1..] == a[1..] + b;
      SkillPathsAppend(a[1..], b);
    }
  }

  /** A front-matter value, by its JavaScript type: a string, an array (its
      elements as rendered by `String(...)`), or anything else. */
  datatype FmValue = FmString(s: string) | FmList(items: seq<string>) | FmOther

  /** A document after front-matter parsing: the field map and the body. */
  datatype FrontMatterDoc = FrontMatterDoc(data: map<string, FmValue>, body: string)

  /** The canonical skill fields of one upstream document. */
  datatype SkillDocument = SkillDocument(
    sourcePath: string,
    sourceSha: string,
    title: string,
    description: string,
    category: string,
    tags: seq<string>,
    compatibility: seq<string>,
    content: string)

  /** `typeof fm[key] === "string" ? fm[key] : undefined`. */
  function StringField(fm: map<string, FmValue>, key: string): (r: Option<string>)
    ensures r.Some? <==> key in fm && fm[key].FmString?
    ensures r.Some? ==> fm[key] == FmString(r.value)
  {
    if key in fm && fm[key].FmString? then Some(fm[key].s) else None
  }

  /** `inferCategory`: the first keyword of automation, security, data that
      occurs in `path` names the category; "general" when none does. */
  function InferCategory(path: string): (category: string)
    ensures category == "automation" <==> Contains(path, "automation")
    ensures category == "security" <==> !Contains(path, "automation") && Contains(path, "security")
    ensures category == "data" <==>
      !Contains(path, "automation") && !Contains(path, "security") && Contains(path, "data")
    ensures category == "general" <==>
      !Contains(path, "automation") && !Contains(path, "security") && !Contains(path, "data")
  {
    if Contains(path, "automation") then "automation"
    else if Contains(path, "security") then "security"
    else if Contains(path, "data") then "data"
    else "general"
  }

  /** The title of a document without a `title` or `name`: its path with the
      first "/SKILL.md" removed. */
  function PathTitle(path: string): string {
    ReplaceFirst(path, MarkerSuffix, "")
  }

  /** A root marker file has no "/SKILL.md" in it and keeps its full name. */
  lemma RootPathTitle()
    ensures PathTitle(MarkerFile) == MarkerFile
  {
    assert !OccursAt(MarkerFile, MarkerSuffix, 0);
  }

  /** A nested marker file loses exactly its final "/SKILL.md" as long as
      the directory part does not itself contain one: no occurrence can
      straddle the directory and the suffix, because the suffix starts with
      the only slash of the marker. */
  lemma NestedPathTitle(dir: string)
    requires !Contains(dir, MarkerSuffix)
    ensures PathTitle(dir + MarkerSuffix) == dir
  {
    var p := dir + MarkerSuffix;
    assert OccursAt(p, MarkerSuffix, |dir|);
    forall j: nat | j < |dir| ensures !OccursAt(p, MarkerSuffix, j) {
      if j + |MarkerSuffix| <= |dir| {
        assert !OccursAt(dir, MarkerSuffix, j);
        var k :| 0 <= k < |MarkerSuffix| && dir[j + k] != MarkerSuffix[k];
        assert p[j + k] == dir[j + k];
      } else {
        var k := |dir| - j;
        assert 0 < k < |MarkerSuffix|;
        assert p[j + k] == '/';
        assert MarkerSuffix[k] != '/';
      }
    }
    var i := IndexOf(p, MarkerSuffix);
    assert i == Some(|dir|);
    assert p[..|dir|] == dir;
  }

  /** `normalizeSkill`: every field falls back when the front matter does not
      supply it with the right type, so the function is total. */
  function NormalizeSkill(path: string, doc: FrontMatterDoc, sha: string): (d: SkillDocument)
    ensures d.sourcePath == path && d.sourceSha == sha
    ensures StringField(doc.data, "title").Some? ==> d.title == StringField(doc.data, "title").value
    ensures StringField(doc.data, "title").None? && StringField(doc.data, "name").Some? ==>
      d.title == StringField(doc.data, "name").value
    ensures StringField(doc.data, "title").None? && StringField(doc.data, "name").None? ==>
      d.title == PathTitle(path)
    ensures StringField(doc.data, "description").Some? ==> d.description == StringField(doc.data, "description").value
    ensures StringField(doc.data, "description").None? ==> d.description == "Imported from " + Repo + ":" + path
    ensures StringField(doc.data, "category").Some? ==> d.category == StringField(doc.data, "category").value
    ensures StringField(doc.data, "category").None? ==> d.category == InferCategory(Lower(path))
    ensures "tags" in doc.data && doc.data["tags"].FmList? ==>
      && |d.tags| == |doc.data["tags"].items|
      && forall i :: 0 <= i < |d.tags| ==> d.tags[i] == Lower(doc.data["tags"].items[i])
    ensures !("tags" in doc.data && doc.data["tags"].FmList?) ==> d.tags == [d.category, SyncTag]
    ensures d.compatibility == SyncCompatibility
    ensures d.content == Trim(doc.body)
  {
    var fm := doc.data;
    var title := StringField(fm, "title").GetOr(StringField(fm, "name").GetOr(PathTitle(path)));
    var description := StringField(fm, "description").GetOr("Imported from " + Repo + ":" + path);
    var category := StringField(fm, "category").GetOr(InferCategory(Lower(path)));
    var tags :=
      if "tags" in fm && fm["tags"].FmList? then
        var items := fm["tags"].items;
        seq(|items|, i requires 0 <= i < |items| => Lower(items[i]))
      else [category, SyncTag];
    SkillDocument(path, sha, title, description, category, tags, SyncCompatibility, Trim(doc.body))
  }

  /** Category inference is case-insensitive: a path whose lower-cased form
      contains a keyword, with no front-matter category, gets that keyword's
      category, however the path is capitalised. */
  lemma CategoryIgnoresCase(path: string, path': string, doc: FrontMatterDoc, sha: string)
    requires Lower(path) == Lower(path')
    requires StringField(doc.data, "category").None?
    ensures NormalizeSkill(path, doc, sha).category == NormalizeSkill(path', doc, sha).category
  {
  }

  /** The content, and so its hash, depends on the body alone: neither the
      path, the commit, nor any front-matter field changes it. */
  lemma ContentDependsOnBodyOnly(path: string, path': string, doc: FrontMatterDoc, doc': FrontMatterDoc,
                                 sha: string, sha': string)
    requires doc.body == doc'.body
    ensures NormalizeSkill(path, doc, sha).content == NormalizeSkill(path', doc', sha').content
  {
  }
}
