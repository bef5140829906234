/** Actions of an action graph, their configurations and the digests that name cache buckets. */
module Actions {
  import opened Wrappers
  import opened Strings

  datatype CommitPoint = CommitPoint(name: string, branch: string, commitSha: string, commitRequired: string)

  datatype BuildImageConfig = BuildImageConfig(
    imageName: string, imageTag: string, baseImage: string,
    commitPoint: Option<CommitPoint>, bazelTargets: seq<string>)

  /** The message packed in an action; unpacking it as any other type fails. */
  datatype Config =
    | BuildImage(build: BuildImageConfig)
    | Generate(id: string)
    | OtherConfig

  datatype Action = Action(kind: string, config: Config)

  datatype AGraph = AGraph(name: string, actions: map<string, Action>)

  const NO_BUILD := BuildImageConfig("", "", "", None, [])

  /** The build configuration of an action; unpacking a message of another type leaves it empty. */
  function BuildConfig(a: Action): BuildImageConfig {
    if a.config.BuildImage? then a.config.build else NO_BUILD
  }

  /** A hash without collisions: what is hashed stands for the hash. */
  datatype Digest =
    | BuildDigest(baseImage: string, commitPoint: Option<CommitPoint>)
    | GenerateDigest(id: string)

  /** None for an action of unknown kind or with a configuration of another type than its kind's. */
  function ActionDigest(a: Action): Option<Digest> {
    if a.kind == "build-image" then
      if a.config.BuildImage? then Some(BuildDigest(a.config.build.baseImage, a.config.build.commitPoint)) else None
    else if a.kind == "generate" then
      if a.config.Generate? then Some(GenerateDigest(a.config.id)) else None
    else None
  }

  /** An action has a digest exactly if its configuration is of the type of its kind, one of two. */
  lemma DigestExists(a: Action)
    ensures ActionDigest(a).Some? <==>
            (a.kind == "build-image" && a.config.BuildImage?) || (a.kind == "generate" && a.config.Generate?)
  {
  }

  /**
   Two actions share a digest exactly if they are of one kind and agree in what is hashed: base
   image and all of the commit point, whatever the targets, image name and tag, or the id.
   */
  lemma SameDigestIff(a: Action, b: Action)
    requires ActionDigest(a).Some? && ActionDigest(b).Some?
    ensures ActionDigest(a) == ActionDigest(b) <==>
            a.kind == b.kind &&
            match (a.config, b.config)
            case (BuildImage(x), BuildImage(y)) =>
              && x.baseImage == y.baseImage && (x.commitPoint.Some? <==> y.commitPoint.Some?)
              && (x.commitPoint.Some? ==>
                    && x.commitPoint.value.name == y.commitPoint.value.name
                    && x.commitPoint.value.branch == y.commitPoint.value.branch
                    && x.commitPoint.value.commitSha == y.commitPoint.value.commitSha
                    && x.commitPoint.value.commitRequired == y.commitPoint.value.commitRequired)
            case (Generate(i), Generate(j)) => i == j
            case _ => false
  {
  }

  // ---------- Looking up an action by path ----------

  function GetAction(g: AGraph, fullValuePath: string): Option<Action> {
    var components := Split(fullValuePath, '.');
    if g.name != components[0] then None
    else
      var value := Join(components[1..], '.');
      if value in g.actions then Some(g.actions[value]) else None
  }

  /**
   A path finds the action of a key exactly when it is the graph's name, a dot and the key,
   dots in the key included; the bare name stands for the empty key. A graph whose name
   holds a dot answers no path at all.
   */
  lemma GetActionFinds(g: AGraph, path: string, a: Action)
    ensures GetAction(g, path) == Some(a) <==>
            '.' !in g.name
            && exists key :: key in g.actions && g.actions[key] == a
                             && (path == g.name + "." + key || (key == "" && path == g.name))
  {
    if '.' !in g.name {
      SplitWhole(g.name, '.');
      forall key | key in g.actions && path == g.name + "." + key
        ensures GetAction(g, path) == Some(g.actions[key])
      {
        assert path == g.name + ['.'] + key;
        SplitFirst(g.name, key, '.');
        JoinSplit(key, '.');
        assert Split(path, '.')[1..] == Split(key, '.');
      }
    }
    if GetAction(g, path) == Some(a) {
      var components := Split(path, '.');
      PiecesHaveNoSeparator(path, '.', 0);
      JoinSplit(path, '.');
      var key := Join(components[1..], '.');
      if |components| == 1 {
        assert key == "";
      } else {
        assert path == g.name + "." + key;
      }
    }
  }
}
