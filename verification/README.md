# Kubernetes pod log path helpers, in Dafny

The Kubernetes log source finds container logs by their location on the node.
The kubelet writes the log files of a container to

    /var/log/pods/<namespace>_<pod name>_<pod uid>/<container name>/<log file>

The source has two helpers for this layout:

- one builds the pod-level directory (`build_pod_logs_directory`);
- one parses the path of a log file back into the pod namespace, pod name,
  pod uid and container name (`parse_log_file_path`, which returns a
  `LogFileInfo`).

This project models both helpers for POSIX hosts and proves what they
guarantee and where they fall short.

Modules:

- `Options`: the `Option` type the parser returns.
- `Text`: Rust's `str::split` on a single character, as `Split`, with its
  inverse `Join`. The proofs show:
  - splitting yields one more piece than there are separators;
  - no piece holds the separator;
  - joining the pieces gives back the string;
  - splitting inverts joining for separator-free pieces.
- `PosixPath`: the two parts of `std::path` the helpers use. The results
  below hold for every path and every appended path.
  - `Components` models the components that `Path::iter` yields. That is the
    root directory `/` for an absolute path, or `.` for a relative path that
    is `.` or starts with `./`. Then come the `/`-separated pieces, dropping
    empty pieces and `.` pieces.
  - `Push` models `Path::join`. An absolute argument replaces the base.
    Otherwise a `/` goes in between, unless the base is empty or already ends
    in `/`.
  - Lemmas say exactly which components a join adds.
- `PathHelpers`: the root directory `K8sLogsDir`, `/var/log/pods`
  (path_helpers.rs:9-22); the record `LogFileInfo` of namespace, pod name, pod
  uid and container name (path_helpers.rs:65-72); the builder, the parser and
  their properties. The properties are:
  - the builder adds one component;
  - when the parse succeeds, and what it then reports;
  - the parse depends only on the pod directory and container components;
  - the round trip;
  - how the unescaped `_` format loses information.
- `PathHelpersExamples`: the cases the source's unit tests check, and two
  examples of the format's edge cases.

The parser reads only the last three components of a path. It skips the file
name, takes the container name and then the pod directory. It splits the pod
directory on `_` and keeps the first three fields. Any missing part gives
`None`. Nothing checks that the path lies under `/var/log/pods` or that the pod
directory has exactly three fields. Extra fields are dropped silently
(`ParseKeepsFirstThreeFields`). A `_` inside an identity field therefore shifts
the fields (`SeparatorInNamespaceShiftsFields`).

The builder joins the directory name onto the root with `Path::join`. A
namespace that starts with `/` is an absolute path, so it replaces the root
(`BuildAbsoluteNamespaceExample`). Kubernetes namespace names cannot contain
`/`, so this does not arise for real pods.

`_`-free fields alone are not enough for the round trip. It holds when none
of the following is true:

- an identity field holds `_` or `/`;
- the container or file name holds `/`;
- the container or file name is `.` or empty, since `Path::iter` drops those
  components.

## Model

| member | source | states |
|---|---|---|
| `Text.Split` | src/sources/kubernetes_logs/path_helpers.rs:51 | splitting always yields at least one piece; the empty string is one empty field |
| `Text.SplitCount` | src/sources/kubernetes_logs/path_helpers.rs:51 | splitting yields exactly one more piece than the string holds separators |
| `Text.SplitPiecesLackSeparator` | src/sources/kubernetes_logs/path_helpers.rs:51 | no piece of a split holds the separator |
| `Text.JoinSplit` | src/sources/kubernetes_logs/path_helpers.rs:51 | the pieces of a split, rejoined with the separator, give back the string |
| `Text.SplitJoin` | src/sources/kubernetes_logs/path_helpers.rs:51 | splitting the join of separator-free pieces gives back the pieces |
| `Text.SplitAroundSeparator` | src/sources/kubernetes_logs/path_helpers.rs:51 | the pieces of `a + sep + b` are the pieces of `a` followed by those of `b` |
| `PosixPath.Components` | src/sources/kubernetes_logs/path_helpers.rs:44-45 | components are non-empty; the first is the root directory exactly for an absolute path; every later one is a name other than `.` that holds no `/` |
| `PosixPath.Push` | src/sources/kubernetes_logs/path_helpers.rs:34-35 | joining an absolute path yields it; joining a relative path yields `base + p` or `base + "/" + p`, the latter exactly when the base is non-empty and does not end in `/` |
| `PosixPath.ComponentsOfChild` | src/sources/kubernetes_logs/path_helpers.rs:44-45 | appending `/p` to a non-empty path appends exactly the named pieces of `p` to its components |
| `PosixPath.PushComponents` | src/sources/kubernetes_logs/path_helpers.rs:35 | joining a relative path onto a non-empty base appends exactly its named pieces to the base's components |
| `PosixPath.ComponentsEndWithNormalPieces` | src/sources/kubernetes_logs/path_helpers.rs:44-45 | whatever a path starts with, its named pieces are its last components |
| `PathHelpers.LogsDirComponents` | src/sources/kubernetes_logs/path_helpers.rs:9-22 | the POSIX root directory `K8sLogsDir`, `/var/log/pods`, has the components `/`, `var`, `log` and `pods` |
| `PathHelpers.PodDirName` | src/sources/kubernetes_logs/path_helpers.rs:35 | the `format!("{}_{}_{}")` directory name; no ensures of its own, characterised by `PodDirNameFields` and `LeadingFieldsUnique` |
| `PathHelpers.BuildPodLogsDirectory` | src/sources/kubernetes_logs/path_helpers.rs:29-36 | the result is absolute; it is the root directory, `/`, then `ns_name_uid`, unless the namespace is itself absolute, which replaces the root |
| `PathHelpers.BuildAddsOneComponent` | src/sources/kubernetes_logs/path_helpers.rs:29-36 | for `/`-free identity fields, the built directory has the root's components plus exactly one, the pod directory name |
| `PathHelpers.PodDirNameFields` | src/sources/kubernetes_logs/path_helpers.rs:35 | a pod directory name of `_`-free fields splits on `_` into exactly those fields |
| `PathHelpers.ParseComponents` | src/sources/kubernetes_logs/path_helpers.rs:45-62 | the parser after the path is broken into components; no ensures of its own, characterised by `ParseComponentsOutcome` |
| `PathHelpers.ParseLogFilePath` | src/sources/kubernetes_logs/path_helpers.rs:43-63 | `parse_log_file_path`; no ensures of its own, characterised by `ParseLogFilePathOutcome` |
| `PathHelpers.ParseComponentsOutcome` | src/sources/kubernetes_logs/path_helpers.rs:45-63 | from a component list: `Some` exactly when there are at least three components and the third-to-last holds two `_`; the container is the second-to-last component and the identity is the leading `_`-free fields of the third-to-last |
| `PathHelpers.ParseLogFilePathOutcome` | src/sources/kubernetes_logs/path_helpers.rs:43-63 | the same characterisation for a path string; in addition, no reported name holds `/` and the container name is a proper component |
| `PathHelpers.LeadingFieldsUnique` | src/sources/kubernetes_logs/path_helpers.rs:51-55 | a pod directory has only one triple of leading fields, so the parse result is fully determined |
| `PathHelpers.FieldIsFirstPiece` | src/sources/kubernetes_logs/path_helpers.rs:53 | a `_`-free prefix ending at a `_` or at the end is the first piece of the split |
| `PathHelpers.LeadingFieldsOfSplit` | src/sources/kubernetes_logs/path_helpers.rs:51-55 | the first three pieces of a split with at least three pieces are leading fields of the pod directory |
| `PathHelpers.ParsedNamesLackSeparator` | src/sources/kubernetes_logs/path_helpers.rs:47-49 | the parsed pod directory cannot be the root directory, so no reported field holds `/` |
| `PathHelpers.ParseUsesOnlyPodDirAndContainer` | src/sources/kubernetes_logs/path_helpers.rs:45-55 | two component lists that agree on the pod directory and container parse alike |
| `PathHelpers.ParseIgnoresFileName` | src/sources/kubernetes_logs/path_helpers.rs:45-47 | two files in the same directory parse alike: the file name is skipped |
| `PathHelpers.ParseIgnoresLeadingDirectories` | src/sources/kubernetes_logs/path_helpers.rs:44-49 | a path with at least three named pieces parses the same under any prefix directory |
| `PathHelpers.ParseKeepsFirstThreeFields` | src/sources/kubernetes_logs/path_helpers.rs:51-55 | a pod directory with more than three fields parses to its first three; the rest is dropped |
| `PathHelpers.RoundTrip` | src/sources/kubernetes_logs/path_helpers.rs:29-63 | parsing a log file path inside a built pod directory recovers the identity and container, for fields free of `_` and `/` and proper container and file names |
| `PathHelpers.SeparatorInNamespaceShiftsFields` | src/sources/kubernetes_logs/path_helpers.rs:51-55 | a namespace `a_b` parses back as namespace `a`, name `b` and uid set to the pod name; the real uid is lost |
| `PathHelpersExamples.BuildSandboxExample` | src/sources/kubernetes_logs/path_helpers.rs:82-85 | the sample pod directory is `/var/log/pods/sandbox0-ns_sandbox0-name_sandbox0-uid` |
| `PathHelpersExamples.BuildEmptyExample` | src/sources/kubernetes_logs/path_helpers.rs:87 | empty identity fields give `/var/log/pods/__` |
| `PathHelpersExamples.BuildAbsoluteNamespaceExample` | src/sources/kubernetes_logs/path_helpers.rs:34-35 | a namespace `/etc` replaces the root directory: `/etc_x_y` |
| `PathHelpersExamples.ParseSandboxExample` | src/sources/kubernetes_logs/path_helpers.rs:102-110 | the sample log file path parses to the sample pod and container |
| `PathHelpersExamples.ParseOtherExample` | src/sources/kubernetes_logs/path_helpers.rs:112 | `/var/log/pods/other` gives `None`, because its would-be pod directory `log` has no `_` |
| `PathHelpersExamples.ParseShortExamples` | src/sources/kubernetes_logs/path_helpers.rs:113-114 | `qwe` and the empty path give `None` |
| `PathHelpersExamples.AmbiguousFieldsExample` | src/sources/kubernetes_logs/path_helpers.rs:29-63 | building with namespace `a_b` and parsing back reports namespace `a`, name `b`, uid `c` |

## Left out

- The Windows branch of the root directory (`C:\var\log\pods`, lines 10-13) and Windows path semantics: only POSIX targets are modelled.
- The `to_str()?` failures (lines 48-49): the components of a path made from a `&str` are valid UTF-8, so these never fail on POSIX and are not modelled.
- `LogFileInfo` borrows slices of the input with a lifetime. The model holds copies of the strings. The derived traits (`Debug`, `Clone`, `Hash`) are left out, and equality is Dafny's structural equality.
- Paths are modelled as character sequences rather than bytes. The separators `/` and `_` and the name `.` are ASCII, so the split points are the same.
- The unit tests compare the built `PathBuf` with `PathBuf::from(expected)`. That compares components, and the examples here prove the stronger equality of strings.
- No filesystem access takes place in the helpers, and none is modelled.
