/**
 The Kubernetes pod log path convention on POSIX hosts. The kubelet writes the
 logs of a container to

     /var/log/pods/<namespace>_<name>_<uid>/<container name>/<log file name>

 `BuildPodLogsDirectory` computes the pod-level directory of that layout from a
 pod's identity; `ParseLogFilePath` recovers the pod identity and container name
 from the path of a log file, looking only at its last three components.
 */
module PathHelpers {
  import opened Options
  import opened Text
  import opened PosixPath

  /** The root directory for pod logs. */
  const K8sLogsDir: string := "/var/log/pods"

  /** The separator between the fields of a pod log directory name. */
  const FieldSeparator: char := '_'

  /** What a pod log file path says about the file's origin. */
  datatype LogFileInfo = LogFileInfo(
    podNamespace: string,
    podName: string,
    podUid: string,
    containerName: string)

  /** The pod log directory name `{namespace}_{name}_{uid}`; nothing is escaped. */
  function PodDirName(namespace: string, name: string, uid: string): string {
    namespace + [FieldSeparator] + name + [FieldSeparator] + uid
  }

  /** `podDir` begins with the three fields `namespace`, `name` and `uid`,
      none of which holds the field separator, and any rest of it starts with
      another separator. These three fields are determined by `podDir`. */
  predicate HasLeadingFields(podDir: string, namespace: string, name: string, uid: string) {
    var head := PodDirName(namespace, name, uid);
    && FieldSeparator !in namespace
    && FieldSeparator !in name
    && FieldSeparator !in uid
    && head <= podDir
    && (|podDir| == |head| || podDir[|head|] == FieldSeparator)
  }

  /** The log directory of a pod sandbox: the pod directory name joined onto the
      root. A namespace that is itself an absolute path replaces the root, as
      joining an absolute path does. */
  function BuildPodLogsDirectory(podNamespace: string, podName: string, podUid: string): (dir: string)
    ensures IsAbsolute(dir)
    ensures !IsAbsolute(podNamespace)
            ==> dir == K8sLogsDir + [Separator] + PodDirName(podNamespace, podName, podUid)
    ensures IsAbsolute(podNamespace) ==> dir == PodDirName(podNamespace, podName, podUid)
  {
    Push(K8sLogsDir, PodDirName(podNamespace, podName, podUid))
  }

  /** Parses the components of a log file path, last first: the file name is
      skipped, the next component is the container name and the one after is
      the pod directory, whose first three `_`-separated fields are the
      namespace, name and uid. Anything missing gives `None`. */
  function ParseComponents(cs: seq<string>): Option<LogFileInfo> {
    if |cs| < 3 then None
    else
      var fields := Split(cs[|cs| - 3], FieldSeparator);
      if |fields| < 3 then None
      else Some(LogFileInfo(fields[0], fields[1], fields[2], cs[|cs| - 2]))
  }

  /** A parse of components succeeds exactly when there are at least three and
      the third from last holds two `_`; it then reports the second-to-last as
      the container name and the leading fields of the third-to-last. */
  lemma ParseComponentsOutcome(cs: seq<string>)
    ensures var info := ParseComponents(cs);
            info.Some? <==> |cs| >= 3 && multiset(cs[|cs| - 3])[FieldSeparator] >= 2
    ensures var info := ParseComponents(cs);
            info.Some? ==> && info.value.containerName == cs[|cs| - 2]
                           && HasLeadingFields(cs[|cs| - 3], info.value.podNamespace,
                                               info.value.podName, info.value.podUid)
  {
    if |cs| >= 3 {
      SplitCount(cs[|cs| - 3], FieldSeparator);
      if |Split(cs[|cs| - 3], FieldSeparator)| >= 3 {
        LeadingFieldsOfSplit(cs[|cs| - 3]);
      }
    }
  }

  /** The first three pieces of a pod directory with at least two separators
      are its leading fields. */
  lemma LeadingFieldsOfSplit(podDir: string)
    requires |Split(podDir, FieldSeparator)| >= 3
    ensures var fields := Split(podDir, FieldSeparator);
            HasLeadingFields(podDir, fields[0], fields[1], fields[2])
  {
    var fields := Split(podDir, FieldSeparator);
    SplitPiecesLackSeparator(podDir, FieldSeparator);
    JoinSplit(podDir, FieldSeparator);
    JoinFirstThree(fields, FieldSeparator);
    var head := PodDirName(fields[0], fields[1], fields[2]);
    if |fields| == 3 {
      assert podDir == head;
    } else {
      var rest := [FieldSeparator] + Join(fields[3..], FieldSeparator);
      assert podDir == head + rest;
      assert podDir[|head|] == rest[0];
    }
  }

  /** A pod directory has at most one set of leading fields. */
  lemma LeadingFieldsUnique(podDir: string, namespace: string, name: string, uid: string,
                            namespace': string, name': string, uid': string)
    requires HasLeadingFields(podDir, namespace, name, uid)
    requires HasLeadingFields(podDir, namespace', name', uid')
    ensures namespace == namespace' && name == name' && uid == uid'
  {
    var head, head' := PodDirName(namespace, name, uid), PodDirName(namespace', name', uid');
    FieldUnique(podDir, namespace, namespace');
    var rest := podDir[|namespace| + 1..];
    assert name <= rest && rest[|name|] == FieldSeparator;
    assert name' <= rest && rest[|name'|] == FieldSeparator;
    FieldUnique(rest, name, name');
    var last := rest[|name| + 1..];
    assert uid <= last && (|last| == |uid| || last[|uid|] == FieldSeparator);
    assert uid' <= last && (|last| == |uid'| || last[|uid'|] == FieldSeparator);
    FieldUnique(last, uid, uid');
  }

  /** Two prefixes of `s` free of `_`, each ending where `s` ends or at a `_`,
      are the same. */
  lemma FieldUnique(s: string, field: string, field': string)
    requires FieldSeparator !in field && field <= s && (|s| == |field| || s[|field|] == FieldSeparator)
    requires FieldSeparator !in field' && field' <= s && (|s| == |field'| || s[|field'|] == FieldSeparator)
    ensures field == field'
  {
    FieldIsFirstPiece(s, field);
    FieldIsFirstPiece(s, field');
  }

  /** Such a prefix is the first `_`-separated piece of `s`. */
  lemma {:induction false} FieldIsFirstPiece(s: string, field: string)
    requires FieldSeparator !in field && field <= s && (|s| == |field| || s[|field|] == FieldSeparator)
    ensures field == Split(s, FieldSeparator)[0]
    decreases |field|
  {
    if |field| > 0 {
      assert s == [s[0]] + s[1..];
      SplitCons(s[0], s[1..], FieldSeparator);
      FieldIsFirstPiece(s[1..], field[1..]);
      assert field == [field[0]] + field[1..];
    } else if |s| > 0 {
      assert s == [s[0]] + s[1..];
      SplitCons(s[0], s[1..], FieldSeparator);
    }
  }

  /** A character missing from a pod directory is missing from its leading fields. */
  lemma LeadingFieldsInherit(podDir: string, namespace: string, name: string, uid: string, c: char)
    requires HasLeadingFields(podDir, namespace, name, uid) && c !in podDir
    ensures c !in namespace && c !in name && c !in uid
  {
    var head := PodDirName(namespace, name, uid);
    assert head == podDir[..|head|];
    assert forall x :: x in head ==> x in podDir;
    assert forall x :: x in namespace ==> x in head;
    assert forall x :: x in name ==> x in head;
    assert forall x :: x in uid ==> x in head;
  }


  /** Parses the path of a pod log file. */
  function ParseLogFilePath(path: string): Option<LogFileInfo> {
    ParseComponents(Components(path))
  }

  /** What a parse of a path reports: `Some` exactly when the path has at least
      three components and the third from last holds two `_`; then the record
      holds the second-to-last component as the container name and the leading
      fields of the third-to-last, and none of its names holds `/`. */
  lemma ParseLogFilePathOutcome(path: string)
    ensures var cs, info := Components(path), ParseLogFilePath(path);
            info.Some? <==> |cs| >= 3 && multiset(cs[|cs| - 3])[FieldSeparator] >= 2
    ensures var cs, info := Components(path), ParseLogFilePath(path);
            info.Some? ==> && info.value.containerName == cs[|cs| - 2]
                           && HasLeadingFields(cs[|cs| - 3], info.value.podNamespace,
                                               info.value.podName, info.value.podUid)
    ensures var info := ParseLogFilePath(path);
            info.Some? ==> && IsNormal(info.value.containerName)
                           && Separator !in info.value.containerName
                           && Separator !in info.value.podNamespace
                           && Separator !in info.value.podName
                           && Separator !in info.value.podUid
  {
    var info := ParseLogFilePath(path);
    ParseComponentsOutcome(Components(path));
    if info.Some? {
      ParsedNamesLackSeparator(path, info.value);
    }
  }

  /** No name a successful parse reports holds `/`, and the container name is a
      named component. */
  lemma ParsedNamesLackSeparator(path: string, info: LogFileInfo)
    requires ParseComponents(Components(path)) == Some(info)
    ensures IsNormal(info.containerName) && Separator !in info.containerName
    ensures Separator !in info.podNamespace && Separator !in info.podName && Separator !in info.podUid
  {
    var cs := Components(path);
    ParseComponentsOutcome(cs);
    var podDir := cs[|cs| - 3];
    assert podDir != RootDir by {
      assert multiset(RootDir)[FieldSeparator] == 0;
    }
    LeadingFieldsInherit(podDir, info.podNamespace, info.podName, info.podUid, Separator);
  }

  /** The root directory is its pieces joined with `/`. */
  lemma LogsDirJoin()
    ensures Join(["", "var", "log", "pods"], Separator) == K8sLogsDir
  {
    JoinCons("log", ["pods"], Separator);
    JoinCons("var", ["log", "pods"], Separator);
    JoinCons("", ["var", "log", "pods"], Separator);
  }

  /** The root directory splits on `/` into an empty piece and three names. */
  lemma LogsDirPieces()
    ensures Split(K8sLogsDir, Separator) == [""] + ["var", "log", "pods"]
  {
    LogsDirJoin();
    SplitJoin(["", "var", "log", "pods"], Separator);
    assert [""] + ["var", "log", "pods"] == ["", "var", "log", "pods"];
  }

  /** The root directory has the components `/`, `var`, `log` and `pods`. */
  lemma LogsDirComponents()
    ensures Components(K8sLogsDir) == [RootDir] + ["var", "log", "pods"]
  {
    var names := ["var", "log", "pods"];
    assert forall i :: 0 <= i < |names| ==> IsNormal(names[i]);
    assert Split(K8sLogsDir, Separator) == [""] + names by {
      LogsDirPieces();
    }
    ComponentsOfRootedNames(K8sLogsDir, names);
  }

  /** Splitting a pod directory name whose fields hold no `_` gives back the fields. */
  lemma PodDirNameFields(namespace: string, name: string, uid: string)
    requires FieldSeparator !in namespace && FieldSeparator !in name && FieldSeparator !in uid
    ensures Split(PodDirName(namespace, name, uid), FieldSeparator) == [namespace, name, uid]
  {
    var fields := [namespace, name, uid];
    JoinCons(name, [uid], FieldSeparator);
    JoinCons(namespace, [name, uid], FieldSeparator);
    assert Join(fields, FieldSeparator) == PodDirName(namespace, name, uid);
    SplitJoin(fields, FieldSeparator);
  }

  /** For identity fields free of `/`, the pod log directory is the root
      directory with exactly one more component, the pod directory name. */
  lemma BuildAddsOneComponent(podNamespace: string, podName: string, podUid: string)
    requires Separator !in podNamespace && Separator !in podName && Separator !in podUid
    ensures Components(BuildPodLogsDirectory(podNamespace, podName, podUid))
            == Components(K8sLogsDir) + [PodDirName(podNamespace, podName, podUid)]
  {
    var podDir := PodDirName(podNamespace, podName, podUid);
    assert podDir[0] == if |podNamespace| > 0 then podNamespace[0] else FieldSeparator;
    assert Separator !in podDir;
    PushComponents(K8sLogsDir, podDir);
    NormalPiecesOfName(podDir);
  }

  /** Only the pod directory and the container name decide the outcome of a parse:
      neither the file name nor anything above the pod directory matters. */
  lemma ParseUsesOnlyPodDirAndContainer(cs: seq<string>, cs': seq<string>)
    requires |cs| >= 3 && |cs'| >= 3
    requires cs[|cs| - 3] == cs'[|cs'| - 3] && cs[|cs| - 2] == cs'[|cs'| - 2]
    ensures ParseComponents(cs) == ParseComponents(cs')
  {
  }

  /** Two files in the same directory parse alike. */
  lemma ParseIgnoresFileName(dir: string, file: string, file': string)
    requires IsNormal(file) && Separator !in file
    requires IsNormal(file') && Separator !in file'
    ensures ParseLogFilePath(dir + [Separator] + file) == ParseLogFilePath(dir + [Separator] + file')
  {
    var cs := if |dir| > 0 then Components(dir) else [RootDir];
    ComponentsOfFileIn(dir, file);
    ComponentsOfFileIn(dir, file');
    ParseIgnoresLastComponent(cs, file, file');
  }

  /** Components that differ only in the last parse alike. */
  lemma ParseIgnoresLastComponent(cs: seq<string>, last: string, last': string)
    ensures ParseComponents(cs + [last]) == ParseComponents(cs + [last'])
  {
    if |cs| >= 2 {
      ParseUsesOnlyPodDirAndContainer(cs + [last], cs + [last']);
    }
  }

  /** The components of a file in a directory: those of the directory, or the
      root directory when the directory is empty, followed by the file name. */
  lemma ComponentsOfFileIn(dir: string, file: string)
    requires IsNormal(file) && Separator !in file
    ensures Components(dir + [Separator] + file)
            == (if |dir| > 0 then Components(dir) else [RootDir]) + [file]
  {
    NormalPiecesOfName(file);
    if |dir| > 0 {
      ComponentsOfChild(dir, file);
    } else {
      PushComponentsFromRoot(file);
      assert dir + [Separator] + file == [Separator] + file;
    }
  }

  /** A path with at least three named pieces parses the same under any prefix
      directory: the parser does not look for the root directory. */
  lemma ParseIgnoresLeadingDirectories(prefix: string, path: string)
    requires |NormalPieces(Split(path, Separator))| >= 3
    ensures ParseLogFilePath(prefix + [Separator] + path) == ParseLogFilePath(path)
  {
    PrefixedComponentsParseAlike(prefix, path);
  }

  /** `ParseIgnoresLeadingDirectories` at the level of components. */
  lemma PrefixedComponentsParseAlike(prefix: string, path: string)
    requires |NormalPieces(Split(path, Separator))| >= 3
    ensures ParseComponents(Components(prefix + [Separator] + path)) == ParseComponents(Components(path))
  {
    PrefixedPathParsesAsPieces(prefix, path);
    PathParsesAsPieces(path);
  }

  /** Under a prefix, a path with three or more named pieces parses as those pieces. */
  lemma PrefixedPathParsesAsPieces(prefix: string, path: string)
    requires |NormalPieces(Split(path, Separator))| >= 3
    ensures ParseComponents(Components(prefix + [Separator] + path))
            == ParseComponents(NormalPieces(Split(path, Separator)))
  {
    ComponentsUnderPrefix(prefix, path);
    SameEndingsParseAlike(Components(prefix + [Separator] + path), NormalPieces(Split(path, Separator)),
                          NormalPieces(Split(path, Separator)));
  }

  /** A path with three or more named pieces parses as those pieces. */
  lemma PathParsesAsPieces(path: string)
    requires |NormalPieces(Split(path, Separator))| >= 3
    ensures ParseComponents(Components(path)) == ParseComponents(NormalPieces(Split(path, Separator)))
  {
    ComponentsEndWithNormalPieces(path);
    SameEndingsParseAlike(Components(path), NormalPieces(Split(path, Separator)),
                          NormalPieces(Split(path, Separator)));
  }

  /** Component lists that end with the same three or more components parse alike. */
  lemma SameEndingsParseAlike(cs: seq<string>, cs': seq<string>, n: seq<string>)
    requires |n| >= 3
    requires |n| <= |cs| && cs[|cs| - |n|..] == n
    requires |n| <= |cs'| && cs'[|cs'| - |n|..] == n
    ensures ParseComponents(cs) == ParseComponents(cs')
  {
    EndsWithSame(cs, n);
    EndsWithSame(cs', n);
    ParseUsesOnlyPodDirAndContainer(cs, cs');
  }

  /** Below any prefix, a path's normal pieces are the last components. */
  lemma ComponentsUnderPrefix(prefix: string, path: string)
    ensures var cs, n := Components(prefix + [Separator] + path), NormalPieces(Split(path, Separator));
            |n| <= |cs| && cs[|cs| - |n|..] == n
  {
    if |prefix| > 0 {
      ComponentsOfChild(prefix, path);
    } else {
      PushComponentsFromRoot(path);
      assert prefix + [Separator] + path == [Separator] + path;
    }
  }

  /** A sequence ending with `n` has the last elements of `n` as its last elements. */
  lemma EndsWithSame(cs: seq<string>, n: seq<string>)
    requires |n| >= 3 && |n| <= |cs| && cs[|cs| - |n|..] == n
    ensures cs[|cs| - 3] == n[|n| - 3] && cs[|cs| - 2] == n[|n| - 2]
  {
    assert cs[|cs| - 3] == cs[|cs| - |n|..][|n| - 3];
    assert cs[|cs| - 2] == cs[|cs| - |n|..][|n| - 2];
  }

  /** A pod directory with more than two `_` parses to its first three fields;
      the rest is dropped. */
  lemma ParseKeepsFirstThreeFields(cs: seq<string>, namespace: string, name: string, uid: string, rest: string)
    requires FieldSeparator !in namespace && FieldSeparator !in name && FieldSeparator !in uid
    requires |cs| >= 3 && cs[|cs| - 3] == PodDirName(namespace, name, uid) + [FieldSeparator] + rest
    ensures ParseComponents(cs) == Some(LogFileInfo(namespace, name, uid, cs[|cs| - 2]))
  {
    PodDirNameFields(namespace, name, uid);
    SplitAroundSeparator(PodDirName(namespace, name, uid), rest, FieldSeparator);
    var fields := Split(cs[|cs| - 3], FieldSeparator);
    assert fields == [namespace, name, uid] + Split(rest, FieldSeparator);
    assert fields[0] == namespace && fields[1] == name && fields[2] == uid;
  }

  /** The components of the path of a log file inside a built pod log directory. */
  lemma LogFileComponents(podNamespace: string, podName: string, podUid: string, container: string, file: string)
    requires Separator !in podNamespace && Separator !in podName && Separator !in podUid
    requires IsNormal(container) && Separator !in container
    requires IsNormal(file) && Separator !in file
    ensures Components(BuildPodLogsDirectory(podNamespace, podName, podUid)
                       + [Separator] + container + [Separator] + file)
            == Components(K8sLogsDir) + [PodDirName(podNamespace, podName, podUid)] + [container] + [file]
  {
    var dir := BuildPodLogsDirectory(podNamespace, podName, podUid);
    var containerDir := dir + [Separator] + container;
    BuildAddsOneComponent(podNamespace, podName, podUid);
    ComponentsOfChild(dir, container);
    NormalPiecesOfName(container);
    ComponentsOfChild(containerDir, file);
    NormalPiecesOfName(file);
  }

  /** Parsing the path of a log file inside a built pod log directory recovers
      the pod identity and the container name, provided no identity field holds
      `_` or `/` and the container and file names are single named components. */
  lemma RoundTrip(podNamespace: string, podName: string, podUid: string, container: string, file: string)
    requires FieldSeparator !in podNamespace && FieldSeparator !in podName && FieldSeparator !in podUid
    requires Separator !in podNamespace && Separator !in podName && Separator !in podUid
    requires IsNormal(container) && Separator !in container
    requires IsNormal(file) && Separator !in file
    ensures ParseLogFilePath(BuildPodLogsDirectory(podNamespace, podName, podUid)
                             + [Separator] + container + [Separator] + file)
            == Some(LogFileInfo(podNamespace, podName, podUid, container))
  {
    LogFileComponents(podNamespace, podName, podUid, container, file);
    PodDirNameFields(podNamespace, podName, podUid);
  }

  /** The format is ambiguous: a namespace `a_b` shifts the fields, so the parse
      reports namespace `a`, name `b` and the pod name as uid, and the uid is lost. */
  lemma SeparatorInNamespaceShiftsFields(a: string, b: string, podName: string, podUid: string,
                                         container: string, file: string)
    requires FieldSeparator !in a && FieldSeparator !in b && FieldSeparator !in podName
    requires Separator !in a && Separator !in b && Separator !in podName && Separator !in podUid
    requires IsNormal(container) && Separator !in container
    requires IsNormal(file) && Separator !in file
    ensures ParseLogFilePath(BuildPodLogsDirectory(a + [FieldSeparator] + b, podName, podUid)
                             + [Separator] + container + [Separator] + file)
            == Some(LogFileInfo(a, b, podName, container))
  {
    var namespace := a + [FieldSeparator] + b;
    LogFileComponents(namespace, podName, podUid, container, file);
    var cs := Components(K8sLogsDir) + [PodDirName(namespace, podName, podUid)] + [container] + [file];
    assert PodDirName(namespace, podName, podUid) == PodDirName(a, b, podName) + [FieldSeparator] + podUid;
    ParseKeepsFirstThreeFields(cs, a, b, podName, podUid);
  }
}
