/**
 The concrete cases the path helpers are specified by, together with the two
 consequences of the unescaped directory name format worth seeing on an example.
 */
module PathHelpersExamples {
  import opened Options
  import opened Text
  import opened PosixPath
  import opened PathHelpers

  /** A pod identity joins onto the root as one directory name. */
  lemma BuildSandboxExample()
    ensures BuildPodLogsDirectory("sandbox0-ns", "sandbox0-name", "sandbox0-uid")
            == "/var/log/pods/sandbox0-ns_sandbox0-name_sandbox0-uid"
  {
    BuildRelative("sandbox0-ns", "sandbox0-name", "sandbox0-uid");
    SandboxDirSpelled();
  }

  /** A relative namespace is joined onto the root with a `/`. */
  lemma BuildRelative(podNamespace: string, podName: string, podUid: string)
    requires !IsAbsolute(podNamespace)
    ensures BuildPodLogsDirectory(podNamespace, podName, podUid)
            == K8sLogsDir + "/" + podNamespace + "_" + podName + "_" + podUid
  {
  }

  /** The sample pod log directory, spelled out. */
  lemma SandboxDirSpelled()
    ensures K8sLogsDir + "/" + "sandbox0-ns" + "_" + "sandbox0-name" + "_" + "sandbox0-uid"
            == "/var/log/pods/sandbox0-ns_sandbox0-name_sandbox0-uid"
  {
    assert K8sLogsDir + "/" == "/var/log/pods/";
    assert "/var/log/pods/" + "sandbox0-ns" == "/var/log/pods/sandbox0-ns";
    assert "/var/log/pods/sandbox0-ns" + "_" == "/var/log/pods/sandbox0-ns_";
    assert "/var/log/pods/sandbox0-ns_" + "sandbox0-name" == "/var/log/pods/sandbox0-ns_sandbox0-name";
    assert "/var/log/pods/sandbox0-ns_sandbox0-name" + "_" == "/var/log/pods/sandbox0-ns_sandbox0-name_";
  }

  /** Empty identity fields are accepted and leave only the two separators. */
  lemma BuildEmptyExample()
    ensures BuildPodLogsDirectory("", "", "") == "/var/log/pods/__"
  {
  }

  /** A namespace that is an absolute path replaces the root directory. */
  lemma BuildAbsoluteNamespaceExample()
    ensures BuildPodLogsDirectory("/etc", "x", "y") == "/etc_x_y"
  {
  }

  /** A log file path in the kubelet layout parses to its pod and container. */
  lemma ParseSandboxExample()
    ensures ParseLogFilePath("/var/log/pods/sandbox0-ns_sandbox0-name_sandbox0-uid/sandbox0-container0-name/1.log")
            == Some(LogFileInfo("sandbox0-ns", "sandbox0-name", "sandbox0-uid", "sandbox0-container0-name"))
  {
    SandboxPathParts();
    BuildSandboxExample();
    SandboxNamesArePlain();
    RoundTrip("sandbox0-ns", "sandbox0-name", "sandbox0-uid", "sandbox0-container0-name", "1.log");
  }

  /** The sample log file path is the sample pod directory, container and file. */
  lemma SandboxPathParts()
    ensures "/var/log/pods/sandbox0-ns_sandbox0-name_sandbox0-uid/sandbox0-container0-name/1.log"
            == "/var/log/pods/sandbox0-ns_sandbox0-name_sandbox0-uid"
               + [Separator] + "sandbox0-container0-name" + [Separator] + "1.log"
  {
  }

  /** The sample names meet the hypotheses of the round trip. */
  lemma SandboxNamesArePlain()
    ensures FieldSeparator !in "sandbox0-ns" && Separator !in "sandbox0-ns"
    ensures FieldSeparator !in "sandbox0-name" && Separator !in "sandbox0-name"
    ensures FieldSeparator !in "sandbox0-uid" && Separator !in "sandbox0-uid"
    ensures IsNormal("sandbox0-container0-name") && Separator !in "sandbox0-container0-name"
    ensures IsNormal("1.log") && Separator !in "1.log"
  {
  }

  /** Under the root, `other` has `log` as its would-be pod directory, which has no `_`. */
  lemma ParseOtherExample()
    ensures ParseLogFilePath("/var/log/pods/other") == None
  {
    ParseOtherPath("/var/log/pods/other");
  }

  /** `ParseOtherExample` for a path not given as a literal. */
  lemma ParseOtherPath(path: string)
    requires path == K8sLogsDir + [Separator] + "other"
    ensures ParseLogFilePath(path) == None
  {
    var cs := Components(path);
    OtherPathComponents(path);
    assert cs[|cs| - 3] == "log";
    PodDirWithoutFields(cs);
  }

  /** `/var/log/pods/other` has the components of the root and `other`. */
  lemma OtherPathComponents(path: string)
    requires path == K8sLogsDir + [Separator] + "other"
    ensures Components(path) == ([RootDir] + ["var", "log", "pods"]) + ["other"]
  {
    assert IsNormal("other") && Separator !in "other";
    ComponentsOfLogsDirChild("other");
  }

  /** A single name under the root directory adds one component to it. */
  lemma ComponentsOfLogsDirChild(name: string)
    requires IsNormal(name) && Separator !in name
    ensures Components(K8sLogsDir + [Separator] + name) == ([RootDir] + ["var", "log", "pods"]) + [name]
  {
    ComponentsOfChild(K8sLogsDir, name);
    NormalPiecesOfName(name);
    LogsDirComponents();
  }

  /** A would-be pod directory without `_` gives `None`. */
  lemma PodDirWithoutFields(cs: seq<string>)
    requires |cs| >= 3 && FieldSeparator !in cs[|cs| - 3]
    ensures ParseComponents(cs) == None
  {
    SplitWithoutSeparator(cs[|cs| - 3], FieldSeparator);
  }

  /** A single name, and the empty path, have fewer than three components. */
  lemma ParseShortExamples()
    ensures ParseLogFilePath("qwe") == None
    ensures ParseLogFilePath("") == None
  {
    SplitWithoutSeparator("qwe", Separator);
  }

  /** An identity field holding `_` does not survive the round trip: the fields
      are re-cut at the first two separators and the rest is dropped. */
  lemma AmbiguousFieldsExample()
    ensures ParseLogFilePath(BuildPodLogsDirectory("a_b", "c", "d") + "/k/0.log")
            == Some(LogFileInfo("a", "b", "c", "k"))
  {
    assert "a_b" == "a" + [FieldSeparator] + "b";
    assert IsNormal("k") && IsNormal("0.log");
    SeparatorInNamespaceShiftsFields("a", "b", "c", "d", "k", "0.log");
    AppendLogFile(BuildPodLogsDirectory("a_b", "c", "d"));
  }

  /** Appending `/k/0.log` appends the container `k` and the file `0.log`. */
  lemma AppendLogFile(dir: string)
    ensures dir + "/k/0.log" == dir + [Separator] + "k" + [Separator] + "0.log"
  {
  }
}
