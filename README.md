# makeconf in Dafny

A model of makeconf, a Ruby replacement for autoconf's `configure`. A
project lists the binaries, libraries, headers, tests, scripts and manual
pages it builds; makeconf turns that list into a Makefile and a `config.h`.
The repository keeps several generations of the same classes side by side
(the root files, `trunk/…`, `lib/makeconf/…` and `tags/…`), and each
generation is modelled with its own behaviour. The generations are not made
to work together.

The model is organised as follows.

- **Build graph.**
  - `Targets` (trunk/target.rb) holds a target's name, dependencies, rules, directories and batched copies. Each is a `TargetState` value, and `class Target` updates it in place.
  - `Makefiles` (trunk/lib/makeconf/makefile.rb and makefile.rb) is a `class Makefile` of variables, targets and created directories. Each of its methods is specified by a function on `MakefileState`.
  - `LegacyBuild` and `LegacyLibrary` cover the Target, Makefile and Library classes of the single-file makeconf.rb.
  - `Prototype` covers the first configure.rb.
- **Toolchain commands.**
  - `Platform` (trunk/platform.rb) spells the shell commands for each operating system.
  - `Compilers`, `CompilerBuilds` and `EarlyCompilers` cover `command`, `object_files` and `build` of lib/makeconf/compiler.rb, trunk/lib/makeconf/compiler.rb and compiler.rb.
  - `LegacyToolchain` covers the Linker and Compiler of makeconf.rb.
  - `Linkers` and `TrunkLinkers` cover the two linker.rb files.
  - `TrunkMakeconf` covers trunk/makeconf.rb.
  - `Archivers` covers trunk/lib/makeconf/archiver.rb.
- **Header dependencies.**
  - `Headers` parses preprocessor line markers and `#include <…>` lines.
  - `CompilerDepends` covers `makedepends`, given the preprocessor output and the file contents as line sequences.
- **Buildable variants.**
  - `Buildables` covers option validation, `library?` and `library_type`.
  - `TrunkBuildables` covers the attribute-based Buildable and the library split of trunk/lib/makeconf.
  - `EarlyLibraries` covers library.rb.
  - `Tests`, `ExternalProjects`, `Manuals` and `HeaderFiles` cover the fixed fragments each of those classes adds.
- **Installation and configuration.**
  - `Installers` covers trunk/installer.rb.
  - `Projects` covers the manifest dispatch, build, test, distribution and archive name of lib/makeconf/project.rb.
  - `ProjectConfig` covers the probe caches and the `config.h` text.
- **Helpers.** `Strings`, `Shell`, `RubyValues` and `Patterns` stand for the Ruby core methods and regular expressions the scripts use. They have no row in the table below.

The running system enters only as parameters:
- the target operating system and `MSYSTEM` (`Host`);
- the word size;
- the compiler path found by `search`;
- the files that exist and their contents;
- the output of the preprocessor;
- the verdict of a test compile.

## Model

| member | source | states |
|---|---|---|
| Platform.Archiver | trunk/platform.rb:59-66 | native Windows uses `lib.exe` ending in `/OUT:<archive>`; every other host uses `ar rs <archive>` |
| Platform.ArchiverArguments | trunk/platform.rb:59-66 | the archiver receives exactly the archive and the members as separate arguments, `lib.exe <members> /OUT:<archive>` or `ar rs <archive> <members>` |
| Platform.MkdirAsWritten | trunk/platform.rb:69-79 | mkdir fails exactly when the joined path list is empty or the host is Windows |
| Platform.MkdirAsWrittenMergesDirectories | trunk/platform.rb:69-79 | as written, two or more directories reach `mkdir -p` as one quoted argument, so the command has fewer words than directories |
| Platform.Mkdir | trunk/platform.rb:69-79 | the corrected mkdir fails in the same cases as the code as written |
| Platform.MkdirArguments | trunk/platform.rb:69-79 | the corrected mkdir hands every directory to `mkdir -p` as its own argument |
| Platform.Rm | trunk/platform.rb:82-92 | the remove command starts with `del /F` on native Windows and `rm -f` elsewhere |
| Platform.RmArguments | trunk/platform.rb:82-92 | the remove command's arguments are the verb, the force flag and exactly the given paths |
| Platform.Rmdir | trunk/platform.rb:94-96 | the directory removal is `rmdir /S /Q` on any Windows host and `rm -rf` elsewhere |
| Platform.RmdirArguments | trunk/platform.rb:94-96 | the directory removal's arguments are the verb, its flags and the one path |
| Platform.Cp | trunk/platform.rb:98-108 | the copy command starts with `copy` on native Windows and `cp` elsewhere and ends with the destination |
| Platform.CpArguments | trunk/platform.rb:98-108 | the copy command's arguments are the verb, every source in order and the destination last |
| Platform.DevNull | trunk/platform.rb:111-118 | the discard redirection starts with an output redirection |
| Platform.DevNullStderr | trunk/platform.rb:120-126 | the error-discard redirection starts with a standard-error redirection |
| Platform.ExtensionsDistinct | trunk/platform.rb:129-146 | an executable, an object, a static library and a shared library built from one stem get four different file names on every host |
| Platform.MkdirUnquoted | makeconf.rb:123-134 | the single-file mkdir fails exactly on an empty list or a Windows host and otherwise starts with `umask 22 ; mkdir -p` |
| Platform.MkdirUnquotedArguments | makeconf.rb:123-134 | without quotes every directory is its own argument of `mkdir -p` |
| Platform.VersionedSharedExtension | makeconf.rb:189-191 | a shared library is `.dll` on Windows and `.so.<major>.<minor>` elsewhere |
| Targets.New | trunk/target.rb:4-16 | construction succeeds exactly for a String name and String-or-Array deps and rules, a String being wrapped into a one-element list; otherwise it fails with `Bad objs`, `Bad deps` or `Bad rules` in that order of checking; a new target has no directories and no copies |
| Targets.Empty | trunk/target.rb:4-16 | a target built from a name with the default arguments is the well-formed empty target of that name |
| Targets.WithDependency | trunk/target.rb:40-42 | after `add_dependency` the dependency list holds no duplicates and holds exactly the old dependencies and the new one; nothing else changes |
| Targets.AddDependencyIdempotent | trunk/target.rb:40-42 | re-adding a dependency already in a duplicate-free list leaves the target unchanged |
| Targets.AddDependencyAppends | trunk/target.rb:40-42 | a new dependency goes at the end of a duplicate-free list |
| Targets.WithDir | trunk/target.rb:29-31 | `mkdir` records the directory, appends it only when it is new, and keeps the list duplicate-free |
| Targets.Put | trunk/target.rb:35-38 | storing a copy list keeps an existing destination in its place and appends a new destination at the end |
| Targets.LookupPut | trunk/target.rb:35-38 | after storing a copy list the destination reads that list, every other destination reads what it read before, and destinations stay distinct |
| Targets.CopyAppends | trunk/target.rb:35-38 | `cp` appends the source to its destination's list, creating the list on first use at the end of the destination order, and leaves other destinations alone |
| Targets.Merge | trunk/target.rb:19-21 | `merge!` succeeds exactly when both targets have the same name |
| Targets.MergeCopiesLookup | trunk/target.rb:25 | after merging copy maps a destination of the other target reads the other's list, every other destination keeps the receiver's, and destinations stay distinct |
| Targets.MergeProperties | trunk/target.rb:19-26 | merging well-formed targets of one name: the rules are the receiver's followed by the other's, the directories are the duplicate-free union with the receiver's first and in order, and the copy map follows the other target on shared destinations |
| Targets.MergedWellformed | trunk/target.rb:22-25 | a merged target keeps distinct directories and distinct copy destinations |
| Targets.RuleTexts | trunk/target.rb:63 | rendering the rules succeeds exactly when every rule is a String, and then yields the rules' texts in order |
| Targets.Commands | trunk/target.rb:57-63 | a target's commands can be rendered exactly when its directory list is empty or mkdir accepts it and all rules are Strings |
| Targets.CommandsLayout | trunk/target.rb:57-63 | the commands are one mkdir line only when there are directories, then one copy command per destination in order, then the rules in order |
| Targets.CopyCommands | trunk/target.rb:60-62 | one copy command per destination, copying that destination's sources into it |
| Targets.RecipeLines | trunk/target.rb:57-64 | read back line by line, the recipe is each command prefixed by a tab |
| Targets.MkdirCommand | trunk/target.rb:58 | whichever `mkdir` a target text uses, it fails exactly when the joined directory list is empty or the host is Windows |
| Targets.TargetText | trunk/target.rb:53-65 | a target's text can be rendered exactly when it has no directories or `mkdir` accepts them and every rule is a String, and then starts with a blank line and `name:` |
| Targets.TargetTextLines | trunk/target.rb:53-65 | read back line by line, a target's text is an empty line, the header `name: deps`, then one tab-indented line per command |
| Targets.Target.Text | trunk/target.rb:53-65 | the object's `to_s`, with `Platform.mkdir` as written, fails exactly when it has directories that `mkdir` refuses or a rule that is not a String, and otherwise starts with `name:` on its own line |
| Targets.Target.constructor | trunk/target.rb:4-16 | a new object holds the given name, dependencies and rules, no directories and no copies |
| Targets.Target.Create | trunk/target.rb:4-16 | `Target.new` fails exactly when the value-level constructor does, with the same message, and otherwise yields a fresh valid object holding that state |
| Targets.Target.AddDependency | trunk/target.rb:40-42 | the object's new state is `WithDependency` of the old one and stays valid |
| Targets.Target.AddRule | trunk/target.rb:44-46 | the rule is appended at the end; the other rules keep their order |
| Targets.Target.PrependRule | trunk/target.rb:48-50 | the rule is inserted at the front; the other rules keep their order |
| Targets.Target.Mkdir | trunk/target.rb:29-31 | the object's new state is `WithDir` of the old one and stays valid |
| Targets.Target.Cp | trunk/target.rb:35-38 | the object's new state is `WithCopy` of the old one and stays valid |
| Targets.Target.Merge | trunk/target.rb:19-26 | `merge!` succeeds exactly for an equal name, then the state is `Merged` of both; on failure the receiver is unchanged |
| Makefiles.Initial | trunk/lib/makeconf/makefile.rb:6-14 | a new Makefile has no variables, no created directories, and exactly the seven fixed targets, each empty |
| Makefiles.FixedTargetsPresent | trunk/lib/makeconf/makefile.rb:11-13 | every consistent Makefile holds `all`, `check`, `clean`, `distclean`, `install`, `uninstall` and `distdir` |
| Makefiles.Defined | trunk/lib/makeconf/makefile.rb:17-21 | `define_variable` fails exactly when the name, the operator or the value is missing, with `invalid arguments` for a missing name or operator; otherwise the name maps to the operator and value, the other variables and all targets are untouched |
| Makefiles.DefineVariableLastWins | trunk/lib/makeconf/makefile.rb:17-21 | defining a name twice is the same as defining it once with the second value |
| Makefiles.WithTarget | trunk/lib/makeconf/makefile.rb:36-38 | `add_target` succeeds exactly when `Target.new` does, replaces any same-named target by a fresh one, and leaves every other target and the variables alone |
| Makefiles.WithRuleAt | trunk/lib/makeconf/makefile.rb:40-43 | `add_rule` creates a missing target first, appends the rule to that target's rules, and leaves every other target alone |
| Makefiles.WithDependencyAt | trunk/lib/makeconf/makefile.rb:73-76 | `add_dependency` creates a missing target first (its dependency list already holding the dependency), then the target is the old or new one with `add_dependency` applied, and every other target is untouched |
| Makefiles.DependencyOfNewTarget | trunk/lib/makeconf/makefile.rb:73-76 | a dependency added to a missing target appears there exactly once |
| Makefiles.AddDependencyIdempotentAt | trunk/lib/makeconf/makefile.rb:73-76 | adding the same dependency twice leaves the Makefile as after the first time |
| Makefiles.Distributed | makefile.rb:66-75 | distributing one path changes only the `distdir` target and keeps the Makefile consistent |
| Makefiles.DistributeEffect | makefile.rb:66-75 | a path with `/` records `$(distdir)/<dirname>` as a directory (once) and is copied into it; any other path is copied into `$(distdir)`; no other destination, rule or dependency changes |
| Makefiles.ListDistributed | makefile.rb:66-75 | handing the single-path `distribute` a list changes only the `distdir` target |
| Makefiles.ListDistributeEffect | makefile.rb:66-75 | a list is not matched by the `/` test, so it creates no directory and is copied into `$(distdir)` as one space-joined entry |
| Makefiles.DistributedAll | trunk/lib/makeconf/makefile.rb:46-59 | distributing a list of paths changes only the `distdir` target and keeps the Makefile consistent |
| Makefiles.DistributeTopLevel | trunk/lib/makeconf/makefile.rb:51-57 | a path without `/` is copied into `$(distdir)` and creates no directory |
| Makefiles.DistributeAllTopLevel | trunk/lib/makeconf/makefile.rb:46-59 | paths without `/` are copied into `$(distdir)` in the order given and create no directory |
| Makefiles.InstallMode | trunk/lib/makeconf/makefile.rb:81-87 | the install mode is the caller's mode, or `755` for an executable source and `644` otherwise |
| Makefiles.WithDirRule | trunk/lib/makeconf/makefile.rb:89-93 | the directory-creation rule is appended under `install`, and the directory recorded, exactly when it is to be created; `uninstall` is untouched |
| Makefiles.InstallRules | trunk/lib/makeconf/makefile.rb:79-105 | `install` appends under `install` the directory rule only on a first install into that directory (unless `mkdir` is false) and then one `$(INSTALL) -m <mode> <src> $(DESTDIR)<dst>` rule, appends one removal of `$(DESTDIR)<dst>/<basename>` under `uninstall`, and keeps the variables |
| Makefiles.InstallCreatesDirOnce | trunk/lib/makeconf/makefile.rb:89-93 | once a directory has been created by an install, no later install creates it again |
| Makefiles.MergedDirectoriesForgotten | trunk/lib/makeconf/makefile.rb:26 | a directory the merged-in Makefile had created is nested in the receiver's list, so a later install into it emits the creation rule again |
| Makefiles.MakefileMergeProperties | trunk/lib/makeconf/makefile.rb:23-34 | after `merge!` the other Makefile's variables win, same-named targets are merged by `Target#merge!`, other targets of either side are kept, and the result is consistent |
| Makefiles.MergeTargetMaps | trunk/lib/makeconf/makefile.rb:27-33 | the merge loop over the other Makefile's targets computes the merged target map |
| Makefiles.DistRules | trunk/lib/makeconf/makefile.rb:112-124 | the tarball target has three rules on Windows and seven elsewhere |
| Makefiles.MakeDistTarget | trunk/lib/makeconf/makefile.rb:107-126 | `make_dist` creates target `<project>-<version>.tar.gz` with no dependencies, three rules on Windows and seven elsewhere, the third being `$(MAKE) distdir distdir=<project>-<version>` |
| Makefiles.MakeDistClean | trunk/lib/makeconf/makefile.rb:119-125 | outside Windows `make_dist` appends the removal of the tarball under `clean`; on Windows `clean` is unchanged |
| Makefiles.ToplevelInitialized | makefile.rb:17-34 | `toplevel_init` fails with `Unable to locate makeconf.rb` exactly when neither `makeconf.rb` nor `makeconf/makeconf.rb` exists |
| Makefiles.ToplevelPrepared | makefile.rb:18-21 | the first steps of `toplevel_init` add a `dist` target that depends on `clean` and `$(DISTFILE)` with no rules, append `test -e $(DESTDIR)` to `install`, and change nothing else |
| Makefiles.ToplevelInitializedSpec | makefile.rb:17-34 | on success `dist` depends on `clean` and `$(DISTFILE)` and has no rules, `install` ends with `test -e $(DESTDIR)`, `distdir` copies `config.yaml`, `configure` and then the makeconf.rb that was found (into `$(distdir)`, or into its own directory when under makeconf/), and no other target, variable or directory list changes |
| Makefiles.TargetTexts | trunk/lib/makeconf/makefile.rb:138 | the targets' texts can be rendered exactly when each listed target's text can |
| Makefiles.TextHasEveryTarget | trunk/lib/makeconf/makefile.rb:129-140 | the text of a Makefile contains the text of each of its targets |
| Makefiles.SortedNames | trunk/lib/makeconf/makefile.rb:131-138 | the names are collected and sorted bytewise, one copy each |
| Makefiles.Makefile.constructor | trunk/lib/makeconf/makefile.rb:6-14 | a new object is in the initial state |
| Makefiles.Makefile.DefineVariable | trunk/lib/makeconf/makefile.rb:17-21 | the object follows `Defined`: on success its state is the new one, on failure it is unchanged and the error is the same |
| Makefiles.Makefile.AddTarget | trunk/lib/makeconf/makefile.rb:36-38 | the object follows `WithTarget`, unchanged on failure |
| Makefiles.Makefile.AddRule | trunk/lib/makeconf/makefile.rb:40-43 | the object's new state is `WithRuleAt` of the old one |
| Makefiles.Makefile.AddDependency | trunk/lib/makeconf/makefile.rb:73-76 | the object's new state is `WithDependencyAt` of the old one |
| Makefiles.Makefile.Distribute | makefile.rb:66-75 | the object's new state is `Distributed` of the old one |
| Makefiles.Makefile.DistributeList | makefile.rb:66-75 | the object's new state is `ListDistributed` of the old one |
| Makefiles.Makefile.DistributeAll | trunk/lib/makeconf/makefile.rb:46-59 | the loop over the paths leaves the object in state `DistributedAll` of the old one |
| Makefiles.Makefile.Clean | trunk/lib/makeconf/makefile.rb:63-65 | `clean` appends the remove command for the path under `clean` |
| Makefiles.Makefile.Distclean | trunk/lib/makeconf/makefile.rb:69-71 | `distclean` appends the remove command for the path under `distclean` |
| Makefiles.Makefile.Install | trunk/lib/makeconf/makefile.rb:79-105 | the object's new state is `Installed` of the old one |
| Makefiles.Makefile.MakeDist | trunk/lib/makeconf/makefile.rb:107-126 | the object's new state is `WithDist` of the old one |
| Makefiles.Makefile.Merge | trunk/lib/makeconf/makefile.rb:23-34 | the object's new state is `MergedMakefile` of both old states |
| Makefiles.Makefile.ToplevelInit | makefile.rb:17-34 | `toplevel_init` fails with `Unable to locate makeconf.rb` exactly as the specification does and otherwise reaches its state |
| Makefiles.Makefile.Text | trunk/lib/makeconf/makefile.rb:129-140 | `to_s` returns the variables sorted by name, a blank line, `default: all`, then the targets' texts sorted by name, each target's directories made with `Platform.mkdir` as written |
| LegacyToolchain.Soname | makeconf.rb:404-409 | `soname` records `['soname', s]` after the earlier flags, except on Windows where the linker is unchanged |
| LegacyToolchain.ExportDynamic | makeconf.rb:411-414 | `export_dynamic` records `export-dynamic` on every platform |
| LegacyToolchain.LinkerTokens | makeconf.rb:416-426 | one token per recorded flag, in recording order |
| LegacyToolchain.ParseFlag | makeconf.rb:419-423 | a token reads back as a flag exactly when it starts with `-Wl,-` |
| LegacyToolchain.FlagTokenRoundTrip | makeconf.rb:419-423 | a pair flag rendered as `-Wl,-name,value` and a single flag rendered as `-Wl,-name` read back as the flag they came from |
| LegacyToolchain.LinkerTextWords | makeconf.rb:416-426 | the linker text splits into exactly the flag tokens, one argument per flag, in recording order |
| LegacyToolchain.NewCompiler | makeconf.rb:437-449 | a new compiler has no extra cflags, no ldadd, no sources, an empty linker, and is neither a library, shared, nor in Makefile mode |
| LegacyToolchain.Objs | makeconf.rb:512-515 | `objs` maps each source, in order, by replacing a trailing `.c` with the object extension, prefixed by `-static` for a non-shared library |
| LegacyToolchain.SharedStaticObjectsDiffer | makeconf.rb:512-515 | the shared and the static object of one C source never share a name |
| LegacyToolchain.ObjectSourceRoundTrip | makeconf.rb:512-515 | replacing the object extension of a shared-library or program object by `.c` gives back its source, as `to_make` relies on |
| LegacyToolchain.Kept | makeconf.rb:537-548 | the intended filter keeps exactly the pieces that are not cl.exe-removable flags, in order |
| LegacyToolchain.ClFilterAsWrittenKeepsSecond | makeconf.rb:537-548 | as written, of two adjacent `-Wno-` flags only the first is removed, because its match consumes the space the second needs |
| LegacyToolchain.ClFilterRemovesAll | makeconf.rb:537-548 | the intended filter leaves no removable flag and keeps every other piece in order |
| LegacyToolchain.ClFilterKeepsClean | makeconf.rb:537-548 | flags without removable pieces pass the filter unchanged |
| LegacyToolchain.ClFilterDropsBoth | makeconf.rb:537-548 | the intended filter drops both adjacent flags of the as-written counterexample |
| LegacyToolchain.CommandWords | makeconf.rb:518-565 | for a compiler other than cl.exe, the command's words are the path, the cflags, `-c`, `-fpic -shared` only for a shared library, one word per linker flag, then `$(CFLAGS)` in Makefile mode or `-o <output>` and the sources otherwise, then the ldadd words; no sources-required guard can fail |
| LegacyToolchain.ClCommandFlagsClean | makeconf.rb:530-548 | with the filter corrected as intended, for cl.exe no piece of the flags is a flag cl.exe does not understand, whatever the user's cflags hold |
| LegacyToolchain.ToMakeKeys | makeconf.rb:587-605 | `to_make` has one key per sorted object and one for the output, each once, and no other |
| LegacyToolchain.ToMakeLinkEntry | makeconf.rb:598-602 | the output's entry depends on all objects in sorted order and its rule is the flattened link command |
| LegacyToolchain.ToMakeObjectEntry | makeconf.rb:591-596 | every object other than the output has an entry whose dependency is its `.c` source |
| LegacyToolchain.LinkSharedFlag | makeconf.rb:599-601 | `-shared` is among the link arguments exactly for a shared library |
| LegacyToolchain.ObjectEntryOf | makeconf.rb:592-595 | the entry of one object is its source and the compile command with the output flag |
| LegacyToolchain.LinkRuleOf | makeconf.rb:599-601 | the link rule is `$(CC)`, the output and shared flags, ldflags, `$(LDFLAGS)`, the sorted objects, ldadd and `$(LDADD)` |
| LegacyToolchain.ToMake | makeconf.rb:587-605 | the loop that fills the hash one object at a time yields `ToMakeSpec` |
| LegacyBuild.LegacyTarget | makeconf.rb:631-639 | the single-file `Target.new` never fails: a non-Array deps or rules argument is wrapped into a one-element list, and the target starts with no directories and no copies |
| LegacyBuild.LegacyTargetAgreesWithNew | makeconf.rb:631-639 | where trunk's checked constructor succeeds the single-file one builds the same target; where trunk's fails on a nil or boolean argument, the single-file one wraps that value instead |
| LegacyBuild.WithPushed | makeconf.rb:653-655 | the single-file `add_dependency` appends without removing duplicates, so each call adds one more occurrence |
| LegacyBuild.PushedTwiceListedTwice | makeconf.rb:653-655 | adding a dependency twice lists it twice here, and once with trunk's set semantics |
| LegacyBuild.WithLegacyTarget | makeconf.rb:743-745 | `add_target` replaces any same-named target by a fresh one and leaves every other target alone |
| LegacyBuild.WithPushedAt | makeconf.rb:768-770 | the Makefile's `add_dependency` appends to an existing target's dependencies and changes nothing else |
| LegacyBuild.DistributedList | makeconf.rb:752-761 | a list handed to `distribute` is not matched by the `/` test, so it is copied into `$(distdir)` as one joined entry, creating no directory; nothing else changes |
| LegacyBuild.CleanedOnePath | makeconf.rb:764-766 | cleaning one path appends its remove command under `clean` |
| LegacyBuild.MergedEntries | makeconf.rb:735-741 | merging a hash keeps the variables and directories, keeps every existing target name, and keeps the Makefile consistent |
| LegacyBuild.MergedEntriesGet | makeconf.rb:735-745 | after merging, a key of the hash names a fresh target built from its entry's two items, replacing any same-named target; every other target is as before |
| LegacyBuild.ToMakeEntries | makeconf.rb:587-605 | every entry of `to_make` is an Array, its keys are distinct, and the output's entry is the link entry, so merging it never fails |
| LegacyBuild.StartTargets | makeconf.rb:702-707 | the constructor starts with the six fixed empty targets, `dist` depending on `clean` and `$(DISTFILE)`, and an empty `check` |
| LegacyBuild.ToplevelSteps | makeconf.rb:692-723 | the constructor's steps (the `test -e $(DESTDIR)` install rule, distributing `config.yaml`, `configure` and then `makeconf.rb` or `makeconf/makeconf.rb`, failing when neither exists) reach the same Makefile as `toplevel_init` on a fresh Makefile |
| LegacyBuild.Makefile.constructor | makeconf.rb:692-704 | the object starts with no variables, no created directories and the six fixed empty targets |
| LegacyBuild.Makefile.Started | makeconf.rb:692-713 | the first steps of the constructor reach the start state with the given host, project and version |
| LegacyBuild.Makefile.Create | makeconf.rb:692-723 | construction fails with `Unable to locate makeconf.rb` exactly when neither file exists and otherwise yields a fresh valid object in the `toplevel_init` state |
| LegacyBuild.Makefile.DefineVariable | makeconf.rb:725-729 | the object follows `Defined`, unchanged on failure |
| LegacyBuild.Makefile.AddTarget | makeconf.rb:743-745 | the object's new state is `WithLegacyTarget` of the old one |
| LegacyBuild.Makefile.Merge | makeconf.rb:735-741 | the entries up to the first non-Array value are added as targets; the call fails with `invalid entry` exactly when such a value exists, keeping the targets already added |
| LegacyBuild.Makefile.AddRule | makeconf.rb:747-749 | the object's new state is `WithRuleAt` of the old one |
| LegacyBuild.Makefile.AddDependency | makeconf.rb:768-770 | the object's new state is `WithPushedAt` of the old one |
| LegacyBuild.Makefile.Distribute | makeconf.rb:752-761 | the object's new state is `Distributed` of the old one |
| LegacyBuild.Makefile.DistributeList | makeconf.rb:752-761 | the object's new state is `DistributedList` of the old one |
| LegacyBuild.Makefile.Clean | makeconf.rb:764-766 | the object's new state is `CleanedList` of the old one |
| LegacyBuild.Makefile.Install | makeconf.rb:773-799 | the object's new state is `Installed` of the old one |
| LegacyBuild.Makefile.MakeDist | makeconf.rb:819-839 | the object's new state is `WithDist` of the old one |
| LegacyBuild.Makefile.Text | makeconf.rb:807-815 | `to_s` first runs `make_dist`, then returns the sorted variables, `default: all` and the sorted targets' texts |
| LegacyBuild.TextTwiceCleansTwice | makeconf.rb:807-839 | rendering twice outside Windows leaves two removals of the tarball under `clean` |
| LegacyLibrary.OwnCompiler | makeconf.rb:871-874 | a buildable's compiler is a copy of the project's with the buildable's cflags, ldflags and ldadd each appended after a space; path, linker and sources are kept |
| LegacyLibrary.LibraryCompiler | makeconf.rb:912-917 | the per-variant compiler is a library, shared or not as asked, in Makefile mode, compiles the library's sources, and has the cflags appended once more |
| LegacyLibrary.SharedLibfile | makeconf.rb:931 | the shared library is `<id>.so.<major>.<minor>` outside Windows and `<id>.dll` on Windows |
| LegacyLibrary.StaticObjectTargetsAt | makeconf.rb:920-924 | each sorted static object gets its own compile target; every other target is left as it was |
| LegacyLibrary.StaticLibraryTargets | makeconf.rb:910-928 | the archive target depends on the sorted objects and holds the archiver command, each object has its compile target, the objects are removed under `clean`, and `install` and `uninstall` are untouched |
| LegacyLibrary.StaticObjectSource | makeconf.rb:919-921 | the static object of `<stem>.c` is `<stem>-static<objext>`, and its target depends on `<stem>.c` again |
| LegacyLibrary.SharedMergedTargets | makeconf.rb:947 | merging `to_make` for the shared library sets the output's target to the sorted objects and the link rule and leaves every non-object target alone |
| LegacyLibrary.SharedLinkRule | makeconf.rb:599-601 | a shared library is linked by `$(CC) -o <out> -shared`, ldflags, `$(LDFLAGS)`, the objects, ldadd and `$(LDADD)` |
| LegacyLibrary.SharedLinkTarget | makeconf.rb:939-948 | the shared library depends on its sorted objects and is linked with `-shared` into `<id>.so.<major>.<minor>`, or by `link.exe /DLL /OUT:$@` on Windows; `clean`, `install` and `uninstall` are untouched |
| LegacyLibrary.SharedLibraryInstalled | makeconf.rb:949-950 | the shared library is installed into `$(LIBDIR)` (after a directory rule on first use), removed from there under `uninstall`, and its objects are removed under `clean` |
| LegacyLibrary.LibraryBuiltSteps | makeconf.rb:902-906 | building a library is the static part, then the shared part, then the common part with both outputs recorded in that order |
| LegacyLibrary.BaseBuild | makeconf.rb:877-881 | the common part cleans the outputs, distributes the sources when distributable, and makes `all` depend on the outputs |
| LegacyLibrary.Library.constructor | makeconf.rb:852-875 | a library starts distributable, with no outputs, and with its own copy of the compiler |
| LegacyLibrary.Library.BuildStatic | makeconf.rb:910-928 | the Makefile's new state is `StaticBuilt` of the old one and the archive is appended to the outputs |
| LegacyLibrary.Library.BuildShared | makeconf.rb:930-952 | the Makefile's new state is `SharedBuilt` of the old one and the shared library is appended to the outputs |
| LegacyLibrary.Library.Build | makeconf.rb:902-906 | the Makefile's new state is `LibraryBuilt` of the old one and the outputs gain the archive, then the shared library |
| Linkers.LinkerPath | lib/makeconf/linker.rb:16-24 | the linker is `LINK.EXE` exactly on Windows, `cc` otherwise |
| Linkers.DefaultFlags | lib/makeconf/linker.rb:129-140 | the defaults are empty unless on 64-bit Solaris, where they start with `-m64` and add the amd64 run path exactly on x86 |
| Linkers.FlagToken | lib/makeconf/linker.rb:86-92 | a recorded option renders exactly when Ruby can render it, as a token starting with `-Wl,-`; otherwise Ruby raises a TypeError |
| Linkers.RecordedTokens | lib/makeconf/linker.rb:86-92 | the recorded options render, one token each and in recording order, exactly when every option can be rendered |
| Linkers.RecordedTokensAppend | lib/makeconf/linker.rb:86-92 | rendering a longer list renders the first part, then the second, and fails exactly when the second part does |
| Linkers.FlagsFailure | lib/makeconf/linker.rb:61-95 | `flags` fails exactly without an output (`Output pathname is required`, checked first) or with an option Ruby cannot render (TypeError) |
| Linkers.FlagsWords | lib/makeconf/linker.rb:61-95 | with a one-word output and single-word options, the flags split into exactly the output argument, the shared-library options (only when building one), `-L .`, then one token per recorded option in order |
| Linkers.RpathRendered | lib/makeconf/linker.rb:46-58 | the run path reaches the link as `-Wl,-R,<dir>` on Solaris or `-Wl,--rpath,<dir>` on Linux, each followed by `-Wl,--L,<dir>`, and adds nothing on other hosts |
| Linkers.SonameRendered | lib/makeconf/linker.rb:32-36 | the soname reaches the link as `-Wl,-soname,<s>` after the options recorded before it |
| Linkers.StringFlagsRendered | lib/makeconf/linker.rb:117-126 | every word of a String given to `flags=` becomes its own `-Wl,-<word>` option after the defaults |
| Linkers.TextsOfCommand | lib/makeconf/linker.rb:97-105 | the command's words are the path, the flags, every object and every library, in that order |
| Linkers.TextsOfRule | lib/makeconf/linker.rb:108-110 | the rule's words are `$(LD)`, the flags, `$(LDFLAGS)`, the objects, the libraries and `$(LDADD)` |
| Linkers.Linker.constructor | lib/makeconf/linker.rb:8-25 | a new linker has the platform's path, no options, objects, output or libraries, and is neither shared nor quiet |
| Linkers.Linker.Soname | lib/makeconf/linker.rb:32-36 | `soname` appends `['soname', s]` to the options, except on Windows |
| Linkers.Linker.ExportDynamic | lib/makeconf/linker.rb:39-43 | `export_dynamic` appends `export-dynamic`, except on Windows |
| Linkers.Linker.SetRpath | lib/makeconf/linker.rb:46-58 | `rpath=` records the platform's run-path option and `['-L', dir]`, records nothing on Windows, and throws `Unsupported OS` elsewhere without recording anything |
| Linkers.Linker.Flags | lib/makeconf/linker.rb:61-95 | `flags` returns the flags text of the current state |
| Linkers.Linker.Command | lib/makeconf/linker.rb:97-105 | `command` returns the command text of the current state |
| Linkers.Linker.Rule | lib/makeconf/linker.rb:108-110 | `rule` returns the rule text of the current state |
| Linkers.Linker.SetFlags | lib/makeconf/linker.rb:117-126 | `flags=` resets to the defaults and appends an Array's elements or a String's words; any other value throws `Invalid flag type` after the reset |
| Linkers.Linker.AddLibrary | lib/makeconf/linker.rb:143-153 | `library` appends an Array's elements or a String's words to the libraries; any other value throws `Invalid value: <class>` and adds nothing |
| Linkers.OutTokenUnclosed | lib/makeconf/linker.rb:67 | as written, the Windows output option holds a single double quote |
| Linkers.QuotedOutTokenBalanced | lib/makeconf/linker.rb:67 | the corrected option `/OUT:"<out>"` holds exactly two double quotes, around the output name |
| TrunkLinkers.TrunkLinkTokens | trunk/lib/makeconf/linker.rb:57-81 | trunk's token list is the lib version's with no shared-library options |
| TrunkLinkers.TrunkFlagsText | trunk/lib/makeconf/linker.rb:57-81 | trunk's `flags` text is the lib version's with shared-library output off, so it fails in the same cases |
| TrunkLinkers.Linker.constructor | trunk/lib/makeconf/linker.rb:8-21 | a new linker has the platform's path, no options and no output |
| TrunkLinkers.Linker.Soname | trunk/lib/makeconf/linker.rb:28-32 | `soname` appends `['soname', s]`, except on Windows |
| TrunkLinkers.Linker.ExportDynamic | trunk/lib/makeconf/linker.rb:35-39 | `export_dynamic` appends `export-dynamic`, except on Windows |
| TrunkLinkers.Linker.SetRpath | trunk/lib/makeconf/linker.rb:42-54 | `rpath=` records as in the lib version and throws `Unsupported OS` on other hosts |
| TrunkLinkers.Linker.Flags | trunk/lib/makeconf/linker.rb:57-81 | `flags` returns trunk's flags text of the current state |
| TrunkLinkers.Linker.Command | trunk/lib/makeconf/linker.rb:84-88 | `command` always throws `stub` |
| TrunkLinkers.Linker.SetFlags | trunk/lib/makeconf/linker.rb:90-99 | `flags=` resets to the defaults and appends an Array's elements, or pushes a String's words as one nested element; other values throw `Invalid flag type` |
| TrunkLinkers.OneWordFlagsFail | trunk/lib/makeconf/linker.rb:90-99 | a one-word String given to `flags=` makes the next `flags` call raise a TypeError |
| TrunkLinkers.ThreeWordFlagsLoseThird | trunk/lib/makeconf/linker.rb:90-99 | a three-word String given to `flags=` renders as one option built from the first two words; the third is lost |
| Compilers.Vendor | trunk/lib/makeconf/compiler.rb:313-319 | the vendor is `Microsoft` exactly when the path ends in `cl.exe` (any case), and `Unknown` otherwise |
| Compilers.Command | lib/makeconf/compiler.rb:29-86 | `command` fails exactly when `:output` is missing (ArgumentError), when a non-empty rpath is given on an OS with no rpath flag (Unsupported OS), or when the stage is not compile, link or combined (invalid stage) |
| Compilers.CompileCommandWords | lib/makeconf/compiler.rb:75-76 | the compile stage is the compiler, `-c`, the caller's cflags followed by the added flags, then the inputs |
| Compilers.LinkCommandWords | trunk/lib/makeconf/compiler.rb:93-94 | the link stage is the link driver, the link flags, the linker text, the inputs and the libraries |
| Compilers.CombinedCommandWords | lib/makeconf/compiler.rb:79-80 | the combined stage is the compiler, the compile flags, the link flags, the inputs and the libraries, with no `-c` |
| Compilers.LibOutputFlag | lib/makeconf/compiler.rb:51-55 | the lib compiler adds `/Fo <out>` exactly for a `cl.exe` path and `-o <out>` exactly otherwise |
| Compilers.TrunkVendorFlags | trunk/lib/makeconf/compiler.rb:47-70 | the trunk compiler adds its default flags, then for Microsoft the include path, `/Fo<out>` and `/MD`, `/OUT:"<out>"` and `LINK.EXE`; otherwise `-o <out>` in both and the `:cc` or compiler as driver |
| Compilers.ObjectOfCSource | lib/makeconf/compiler.rb:23 | for a C source the trailing `.c` is replaced by the suffix and the object extension, the stem kept |
| Compilers.ObjectFiles | lib/makeconf/compiler.rb:20-26 | `object_files` returns one object per source, in sorted source order, each the source with `.c` replaced by the object extension |
| Compilers.StaticObjectsApart | lib/makeconf/compiler.rb:182-191 | the shared and the static object of one C source never share a name |
| CompilerBuilds.KindOf | lib/makeconf/compiler.rb:184-190 | objects get `-fpic` exactly for a shared library and the `-static` suffix exactly for a static one |
| CompilerBuilds.ObjectStep | lib/makeconf/compiler.rb:191-200 | one source adds its object target and the object's clean rule and keeps every other target |
| CompilerBuilds.ObjectNames | lib/makeconf/compiler.rb:191-200 | `objs` has one object name per source, in source order |
| CompilerBuilds.TerminalRule | lib/makeconf/compiler.rb:203-215 | a static library is archived; otherwise the link command, which fails only with Unsupported OS when an rpath is set on an OS that has no rpath flag |
| CompilerBuilds.OutputAdded | lib/makeconf/compiler.rb:216 | the output target depends on exactly the objects and has the terminal rule as its only rule; every other target is kept |
| CompilerBuilds.SourcesDistributed | lib/makeconf/compiler.rb:219 | distributing the sources keeps the target names and changes no target but `distdir` |
| CompilerBuilds.Built | lib/makeconf/compiler.rb:175-222 | `build` fails exactly when a non-static output has an rpath on an OS with no rpath flag, and then with Unsupported OS |
| CompilerBuilds.CompileObjects | lib/makeconf/compiler.rb:181-201 | the per-source loop leaves the Makefile the loop specification describes and returns the object names in source order |
| CompilerBuilds.BuildFrom | lib/makeconf/compiler.rb:175-222 | `build` returns a fresh Makefile whose state is the specified build, or that build's error |
| CompilerBuilds.Build | lib/makeconf/compiler.rb:175-222 | the lib compiler's `build` on a lib Buildable is the specified build of the Buildable's fields |
| CompilerBuilds.TrunkBuild | trunk/lib/makeconf/compiler.rb:196-243 | the trunk compiler's `build` on a trunk Buildable is the same specified build of its instance variables |
| CompilerBuilds.ObjectsBuiltTarget | lib/makeconf/compiler.rb:181-201 | after the loop each source's object target is in place unless a later source has the same object name |
| CompilerBuilds.FinishedKeeps | lib/makeconf/compiler.rb:216-219 | the link-stage steps leave every target other than the output, `all`, `clean` and `distdir` unchanged |
| CompilerBuilds.FinishedAll | lib/makeconf/compiler.rb:217 | after the link-stage steps `all` depends on the output |
| CompilerBuilds.FinishedClean | lib/makeconf/compiler.rb:218 | after the link-stage steps `clean` removes the output |
| CompilerBuilds.BuiltObjectTarget | lib/makeconf/compiler.rb:191-199 | in the built Makefile an object depends on its source and that source's local headers and has its compile command as only rule |
| CompilerBuilds.BuiltOutputTarget | lib/makeconf/compiler.rb:203-218 | in the built Makefile the output depends on the objects in source order with the terminal rule, `all` depends on it and `clean` removes it |
| CompilerBuilds.CompileRuleWords | lib/makeconf/compiler.rb:182-197 | an object's compile rule is the compiler, `-c`, the Buildable's cflags, `-fpic` for a shared library, the output flags and the source |
| CompilerBuilds.FinishedOutput | lib/makeconf/compiler.rb:216-219 | after the link-stage steps the output target depends on the objects and has the terminal rule as its only rule |
| CompilerDepends.PreprocessWords | lib/makeconf/compiler.rb:135-141 | the preprocessor command of a source never throws and is the compile command with `-E` after the Buildable's flags, output `-`, errors sent to the null device |
| CompilerDepends.LocalHeaderFrom | lib/makeconf/compiler.rb:144-150 | every local header is a relative `.h` path named by some line marker of the preprocessor output |
| CompilerDepends.LocalHeaderOfLine | lib/makeconf/compiler.rb:145-149 | every header a line marker of the preprocessor output names is a local header |
| CompilerDepends.AllLocalHeadersFrom | lib/makeconf/compiler.rb:151 | a name in the returned list is a local header of some source |
| CompilerDepends.AllLocalHeadersOf | lib/makeconf/compiler.rb:151 | every local header of every source is in the returned list |
| CompilerDepends.AllLocalHeadersSnoc | lib/makeconf/compiler.rb:134-151 | the returned list grows by the next source's local headers, in source order |
| CompilerDepends.ExistingLineFrom | lib/makeconf/compiler.rb:158-162 | a line in the buffer of local headers comes from an existing local header file |
| CompilerDepends.ExistingLineOf | lib/makeconf/compiler.rb:158-162 | every line of every existing local header file is in the buffer, and a missing file adds nothing |
| CompilerDepends.SystemHeaderFrom | lib/makeconf/compiler.rb:163-167 | a system header is named by an include line of the source or of one of its existing local headers |
| CompilerDepends.SystemHeaderOf | lib/makeconf/compiler.rb:163-167 | every include line of the source or of an existing local header names a system header |
| CompilerDepends.SystemHeadersExactly | lib/makeconf/compiler.rb:155-168 | a name is a system header of a source exactly when an include line of the source or of an existing local header names it |
| CompilerDepends.ReadExisting | lib/makeconf/compiler.rb:158-162 | the reading loop appends the lines of the existing files in order |
| CompilerDepends.ScanSource | lib/makeconf/compiler.rb:135-168 | one source's local and system headers are the specified scans |
| CompilerDepends.MakeDepends | lib/makeconf/compiler.rb:129-172 | `makedepends` returns every source's local headers in turn and sets `localdep` and `sysdep` of every source to the specified scans, keeping other entries |
| CompilerDepends.ReadExistingLines | trunk/lib/makeconf/compiler.rb:173-178 | the trunk reading loop appends the lines of the existing files in order |
| CompilerDepends.TrunkScanSource | trunk/lib/makeconf/compiler.rb:151-189 | one source's local headers, system headers and warning count in the trunk scan |
| CompilerDepends.TrunkMakeDepends | trunk/lib/makeconf/compiler.rb:145-193 | trunk `makedepends` returns the same local headers, sets `localdep` and `sysdep` by the trunk scan and warns once per undecodable line |
| CompilerDepends.TrunkDependsOf | trunk/lib/makeconf/compiler.rb:150-191 | the trunk loop over the sources meets the trunk specification |
| CompilerDepends.DecodedAppend | trunk/lib/makeconf/compiler.rb:179-188 | skipping undecodable lines of two buffers read in turn is skipping them in each |
| CompilerDepends.ExistingLinesDecoded | trunk/lib/makeconf/compiler.rb:173-178 | the decodable lines of the buffer are the buffer of the decodable lines of each file |
| CompilerDepends.TrunkSystemHeadersDecoded | trunk/lib/makeconf/compiler.rb:179-189 | the trunk scan finds exactly the system headers the lib scan finds in the decodable lines |
| CompilerDepends.TrunkSystemMapDecoded | trunk/lib/makeconf/compiler.rb:150-191 | the trunk `sysdep` entries are those the lib version writes for the decoded files |
| EarlyCompilers.OutputFlag | compiler.rb:85-89 | the output flag is `/Fo` exactly for a path ending in `cl.exe` (any case) and `-o` exactly otherwise |
| EarlyCompilers.EarlyCommand | compiler.rb:70-110 | `command` fails exactly when `:output` is missing, with ArgumentError |
| EarlyCompilers.EarlyCommandWords | compiler.rb:79-109 | the command is the path, the caller's cflags, `-c`, the output flag and the output, the ldflags, the linker text, the inputs and the ldadd; a missing option adds nothing |
| EarlyCompilers.ObjectList | compiler.rb:61-67 | `object_files` gives one object per source, in sorted source order, with `.c` replaced by the object extension |
| EarlyCompilers.SourceOfObject | compiler.rb:157 | the source recovered from an object name is the stem with `.c`, and a source ending in `.c` comes back unchanged |
| EarlyCompilers.InputOf | compiler.rb:159 | `library? and library_type == :shared` holds exactly when the output type is a shared library |
| EarlyCompilers.ObjectRuleWords | compiler.rb:158-168 | an object's command is the compiler, the cflags, `-fpic` for a shared library, `-c`, the output flag and the object, the link flags, the linker text, the recovered source and the libraries |
| EarlyCompilers.ObjectStep | compiler.rb:169-170 | one object adds its own target with its command and the object's clean rule, keeping every other target |
| EarlyCompilers.BuildObjects | compiler.rb:153 | the objects are sorted and are a permutation of `object_files` |
| EarlyCompilers.LinkRuleWords | compiler.rb:174-179 | the link rule is the compiler, `-o <output>` as one word, `-shared` and (except on Solaris) `-Wl,-export-dynamic` for a shared library, `$(CFLAGS)`, the ldflags, `$(LDFLAGS)`, every object, the ldadd and `$(LDADD)` |
| EarlyCompilers.CompileObjects | compiler.rb:156-171 | the loop over the objects leaves the Makefile its specification describes |
| EarlyCompilers.FinishBuild | compiler.rb:180-183 | the steps after the loop leave the Makefile their specification describes |
| EarlyCompilers.Build | compiler.rb:149-186 | `build` returns a fresh Makefile whose state is the specified build, and never throws for a String output |
| EarlyCompilers.ObjectsBuiltTarget | compiler.rb:156-171 | after the loop each object's target is its own, unless a later object has the same name |
| EarlyCompilers.FinishedKeeps | compiler.rb:180-183 | the steps after the loop leave every other target unchanged |
| EarlyCompilers.BuiltObjectTarget | compiler.rb:156-171 | in the built Makefile each object depends on the source recovered from its name and has its command as its only rule |
| EarlyCompilers.FinishedOutput | compiler.rb:180 | the output target depends on every object and has the link rule as its only rule |
| EarlyCompilers.FinishedAll | compiler.rb:181 | `all` depends on the output |
| EarlyCompilers.FinishedClean | compiler.rb:182 | `clean` removes the output |
| EarlyCompilers.BuiltOutputTarget | compiler.rb:174-182 | in the built Makefile the output depends on every object, sorted, with the link rule as only rule; `all` depends on it and `clean` removes it |
| EarlyCompilers.BuiltDistribution | compiler.rb:183 | a distributable Buildable copies its sources, joined by spaces, as one entry into `$(distdir)`; any other leaves `distdir` as the loop left it |
| EarlyLibraries.SharedLinkFlags | library.rb:17-18 | a shared library's linker flags start with `-shared` and hold `-Wl,-export-dynamic` exactly when the OS is not Solaris |
| EarlyLibraries.LibraryModes | library.rb:10-22 | enabling both kinds raises; a shared library gets the shared extension, `-fpic` and the shared linker flags; otherwise the static extension with the flags untouched |
| EarlyLibraries.NewLibrary | library.rb:3-23 | `Library.new` succeeds exactly when the options validate and the set-up succeeds, and the new object holds the set-up's output, output type and flags |
| EarlyLibraries.ApplySetup | library.rb:10-22 | the constructor body sets output, output type and flags as the set-up says, or fails with its error, changing no other option |
| EarlyLibraries.ApplyShared | library.rb:13-18 | the shared branch sets the shared output and type, pushes `-fpic` and the shared linker flags, and fails when the flags are not Arrays |
| EarlyLibraries.SetLdflags | library.rb:17-18 | setting `@ldflags` changes that option alone |
| EarlyLibraries.NewSharedLibrary | library.rb:54-62 | `SharedLibrary.new` gives the id with the shared extension as output and the shared output type, and fails when the id is not a String |
| EarlyLibraries.NewStaticLibrary | library.rb:91-93 | `StaticLibrary.new` only adds `enable_static`; with no output type it is not a library |
| EarlyLibraries.Build | library.rb:25-26 | `Library#build` and `SharedLibrary#build` always stop with `FIXME` |
| Headers.IncludedNameOfDirective | lib/makeconf/compiler.rb:164 | every `#include <name>` line (leading blanks allowed only in the indented form) yields the name between its angle brackets |
| Headers.IncludedNameIsDirective | trunk/buildable.rb:66 | a name is found only in a line written as an include directive, so the two directions together make the match exact |
| Headers.IncludedName | lib/makeconf/compiler.rb:164 | a captured system header name holds neither `>` nor a newline |
| Headers.MarkedHeader | lib/makeconf/compiler.rb:146 | a header named by a line marker is a relative `.h` path of at least three characters that starts with neither `/` nor `<` |
| Headers.MarkedHeaderOfMarker | lib/makeconf/compiler.rb:146 | the line marker of a local header yields exactly that header's path |
| Headers.CapturedFrom | lib/makeconf/compiler.rb:145-149 | every captured name comes from a line that yields it |
| Headers.CapturesLine | lib/makeconf/compiler.rb:145-149 | every line that yields a name has that name captured |
| Headers.Scan | lib/makeconf/compiler.rb:163-167 | scanning the lines one by one and pushing each match gives the captures in line order |
| Headers.ScanWarning | trunk/lib/makeconf/compiler.rb:179-188 | the trunk scan skips each undecodable line with one warning and captures what the decodable lines hold |
| Headers.DecodedKeepsText | trunk/lib/makeconf/compiler.rb:179-188 | skipping bad lines loses only the undecodable lines: every decodable line still counts |
| Headers.SortedHeaders | lib/makeconf/compiler.rb:150 | `sort!.uniq!` leaves the distinct captured names in strictly increasing order, no name lost or added |
| ExternalProjects.StampName | lib/makeconf/externalproject.rb:38 | the stamp file is the id followed by `-build-stamp` |
| ExternalProjects.StampNotFixed | lib/makeconf/externalproject.rb:38-39 | no stamp file has the name of a fixed target, so the stamp target is new |
| ExternalProjects.StampBuiltSpec | lib/makeconf/externalproject.rb:36-45 | the built Makefile holds the fixed targets and the stamp; `all` depends on the stamp only; the stamp has no dependencies and runs `make` in the package, then touches the stamp |
| ExternalProjects.StampAdded | lib/makeconf/externalproject.rb:38-43 | a new target under `all` gains `all` that dependency, is created with its rules, and nothing else changes |
| ExternalProjects.CheckCleanRules | trunk/lib/makeconf/externalproject.rb:57-58 | a rule added under `check` and one under `clean` are each appended there and nothing else changes |
| ExternalProjects.StampBuiltTrunkSpec | trunk/lib/makeconf/externalproject.rb:49-60 | the trunk build is the lib build plus `make check` in the package under `check` and removal of the stamp under `clean` |
| ExternalProjects.WithoutGet | lib/makeconf/externalproject.rb:12-15 | the options the parent constructor receives lack exactly the removed keys and keep every other option |
| ExternalProjects.ExternalProject.Lib | lib/makeconf/externalproject.rb:10-19 | the lib constructor keeps `:uri`, passes the other options on, and is neither installable nor distributable |
| ExternalProjects.ExternalProject.Trunk | trunk/lib/makeconf/externalproject.rb:10-22 | the trunk constructor also takes out `:configure`, which defaults to the empty String |
| ExternalProjects.ExternalProject.BuildLib | lib/makeconf/externalproject.rb:36-45 | lib `build` returns a fresh Makefile in the stamp-build state |
| ExternalProjects.ExternalProject.BuildTrunk | trunk/lib/makeconf/externalproject.rb:49-60 | trunk `build` returns a fresh Makefile in the trunk stamp-build state |
| HeaderFiles.NamespacedDestSpec | tags/REL_0_2_0/trunk/lib/makeconf/header.rb:21-22 | headers go to `$(INCLUDEDIR)` exactly without a namespace; a String namespace names its own subdirectory, different namespaces different ones; any other namespace raises |
| HeaderFiles.BuiltOnlyDistributes | tags/REL_0_2_0/trunk/lib/makeconf/header.rb:17-19 | the Makefile of a header build holds the fixed targets only, all empty but `distdir`, which copies the top-level headers in order; nothing is compiled or linked |
| HeaderFiles.NamespacedHeader.constructor | tags/REL_0_2_0/trunk/lib/makeconf/header.rb:5-14 | the constructor keeps `:namespace` (nil when absent) and passes the other options on |
| HeaderFiles.NamespacedHeader.Build | tags/REL_0_2_0/trunk/lib/makeconf/header.rb:16-31 | `build` returns a fresh Makefile that distributes the headers and registers one mode-644 record for the destination; a non-String namespace raises and registers nothing |
| HeaderFiles.NamespacedHeader.Makedepends | tags/REL_0_2_0/trunk/lib/makeconf/header.rb:33-35 | headers depend on no other header |
| HeaderFiles.Header.constructor | trunk/lib/makeconf/header.rb:5-10 | the trunk constructor starts with no sources |
| HeaderFiles.Header.Build | trunk/lib/makeconf/header.rb:12-24 | trunk `build` returns a fresh Makefile that distributes the headers and registers one mode-644 record to `$(INCLUDEDIR)` |
| Installers.RegisteredOnlyChecksDest | trunk/installer.rb:66-80 | `install` fails exactly when `:dest` is missing or nil; the directory-and-sources guard reads a key the defaults never hold, so otherwise the merged record is appended |
| Installers.DefaultsRead | trunk/installer.rb:67-74 | the defaults give mode `0755`, hold no `:directory` and no `:owner`, and a nil `:group` |
| Installers.InstallCommand | trunk/installer.rb:111-127 | `install_command` throws exactly on Windows |
| Installers.DestPaths | trunk/installer.rb:139 | each source `x` is removed from `$(DESTDIR)<dest>/x`, one path per source in order |
| Installers.UninstallCommand | trunk/installer.rb:130-144 | `uninstall_command` throws exactly on Windows |
| Installers.UninstallWords | trunk/installer.rb:136-140 | without sources the directory itself is removed with `rmdir`; with sources each installed file is removed by one `rm -f` |
| Installers.DefaultRecordFields | trunk/installer.rb:67-79 | a record registered with only `:dest` and sources has mode `0755` and no directory flag, owner or group |
| Installers.DefaultRecordCommands | trunk/installer.rb:111-144 | such a record installs its sources with `$(INSTALL) -m 0755` into `$(DESTDIR)<dest>` and uninstalls each of them from there |
| Installers.ModeRecordKeys | trunk/installer.rb:66-79 | the record a header or manual page registers has exactly the keys sources, dest and mode with the given values |
| Installers.ModeRecordRegistered | trunk/installer.rb:66-79 | such a record is always accepted and appended with its sources, destination and mode, and no directory flag, owner or group |
| Installers.DirVarName | trunk/installer.rb:94 | `exec-prefix` becomes `EPREFIX`; any other directory key becomes its upper-case spelling, character by character |
| Installers.DirNames | trunk/installer.rb:93-96 | the directory variable names, one per directory, in order |
| Installers.VarsHash | trunk/installer.rb:86-96 | the `tmp` hash has distinct names and String values only |
| Installers.PutDirsGet | trunk/installer.rb:93-96 | a directory's value is under its variable name and names no directory maps to keep their values |
| Installers.BaseVarsShape | trunk/installer.rb:86-91 | the four fixed variables are distinct, `PACKAGE` is the project's id and `INSTALL` is not among them |
| Installers.VarsHashGet | trunk/installer.rb:86-96 | `tmp` holds each directory under its name, `INSTALL` exactly when an installer was found, and `PACKAGE` the project's id |
| Installers.DefinedAll | trunk/installer.rb:97 | defining the variables leaves targets and the directory list unchanged |
| Installers.DefinedAllVars | trunk/installer.rb:97 | every name of `tmp` is defined with `=` and its value, and other variables are untouched |
| Installers.InstallTexts | trunk/installer.rb:100-103 | one install command per record, in registration order |
| Installers.UninstallTexts | trunk/installer.rb:100-103 | one uninstall command per record, in registration order |
| Installers.RulesAddedRules | trunk/installer.rb:100-103 | each record adds exactly one install and one uninstall rule, in order, and no variable changes |
| Installers.InstallerRules | trunk/installer.rb:82-106 | `to_make` fails exactly on Windows with records to translate; otherwise `install` and `uninstall` hold one command per record and nothing else |
| Installers.VarsDefined | trunk/installer.rb:86-97 | the variables defined from `tmp` on a fresh Makefile are the directories, `INSTALL` when known and `PACKAGE` |
| Installers.InstallerVars | trunk/installer.rb:82-106 | the Makefile of `to_make` defines each directory under its variable name, `INSTALL` exactly when an installer was found, and `PACKAGE` the project's id |
| Installers.CollectVars | trunk/installer.rb:86-96 | the loop builds the specified `tmp` hash |
| Installers.DefineEach | trunk/installer.rb:97 | the loop defines every variable of `tmp` as specified |
| Installers.AddRulesNext | trunk/installer.rb:100-103 | one record's two rules, or `FIXME` on Windows |
| Installers.Installer.constructor | trunk/installer.rb:7-37 | a new installer has no records, the default directories and no installer path |
| Installers.Installer.Install | trunk/installer.rb:66-80 | `install` appends the specified record or fails with its error, changing nothing else |
| Installers.Installer.ToMake | trunk/installer.rb:82-106 | `to_make` returns a fresh Makefile in the specified state, or `FIXME` on Windows |
| Manuals.LineEnd | lib/makeconf/manual.rb:12 | the line of a position ends at the next line break or the end of the text |
| Manuals.LastDot | lib/makeconf/manual.rb:12 | the last `.` of a line, and none after it; no `.` at all when absent |
| Manuals.SectionWithoutDot | lib/makeconf/manual.rb:12 | a name without a `.` is its own section |
| Manuals.SectionAfterLastDot | lib/makeconf/manual.rb:12 | for a one-line name holding a `.`, the section is the dot-free text after its last `.` |
| Manuals.SectionExamples | lib/makeconf/manual.rb:12 | `foo.3` is in section 3 and `tar.gz.1` in section 1 |
| Manuals.CompiledOnlyDistributes | lib/makeconf/manual.rb:26-30 | the compiled Makefile has the fixed targets only, all empty but `distdir`, which copies the source; no variable is set |
| Manuals.Manual.constructor | lib/makeconf/manual.rb:7-16 | a manual keeps its source, the `man` format and the section of its source |
| Manuals.Manual.Install | lib/makeconf/manual.rb:18-24 | `install` registers one record with the source, `$(MANDIR)/man<section>` and mode `644` |
| Manuals.Manual.Compile | lib/makeconf/manual.rb:26-30 | `compile` returns a fresh Makefile that only distributes the source |
| Manuals.Manual.Makedepends | lib/makeconf/manual.rb:35-37 | a manual depends on no header |
| Manuals.NewManual | lib/makeconf/manual.rb:7-16 | `Manual.new` fails exactly when the options fail validation, otherwise keeps source, section and options |
| Manuals.ManualNeedsId | lib/makeconf/manual.rb:15 | a manual made without an `:id` option raises the missing-argument error |
| Projects.YGet | lib/makeconf/project.rb:40 | a non-nil value read from a manifest mapping is the value of an entry with that key |
| Projects.OrDefault | lib/makeconf/project.rb:232 | `opt[:dest]` falls back to the default exactly when it is nil (or already the default) |
| Projects.BuildRecordSpec | lib/makeconf/project.rb:197-208 | every record `build` pushes has the unit's output as sources, mode `0755`, and dest `$(LIBDIR)` exactly for shared and static libraries, `$(BINDIR)` otherwise |
| Projects.RecordGet | lib/makeconf/project.rb:204-208 | the sources, dest and mode of a record read back as given |
| Projects.RecordDefaults | lib/makeconf/project.rb:228-257 | without a dest option headers go to `$(INCLUDEDIR)` and manual pages to `$(MANDIR)/man<section>`, both mode `0644`; a script goes to `$(BINDIR)` with mode `0755` |
| Projects.RecordGivenDest | lib/makeconf/project.rb:232 | a dest given in the options is used as it is by `header`, `manpage` and `script` |
| Projects.GsubFromWithoutDot | lib/makeconf/project.rb:240 | what the global substitution leaves of a line holds no `.` |
| Projects.GsubSectionSpec | lib/makeconf/project.rb:240 | the section never holds a `.`, and for a one-line name it is the section the Manual class computes |
| Projects.AsTestSpec | lib/makeconf/project.rb:263-274 | a test is neither installed nor distributed, runs with rpath `$$PWD`, and keeps its flags followed by `-g -O0` except on Windows, `-I.`, and `-I./include` exactly when that directory exists |
| Projects.BuiltSpec | lib/makeconf/project.rb:193-210 | `build` succeeds exactly when every argument is a Buildable; then it adds them all in order with one install record each; on failure the ones before the bad argument stay added |
| Projects.TestedSpec | lib/makeconf/project.rb:260-280 | `test` succeeds exactly when every argument has a `build` method, and adds the same tests to the build and test lists |
| Projects.BinaryUnits | lib/makeconf/project.rb:72-75 | a `binary` entry gives one binary per id |
| Projects.BinaryUnitsFail | lib/makeconf/project.rb:73 | an id that is not a String makes the entry raise |
| Projects.LibraryUnits | lib/makeconf/project.rb:77-80 | a `library` entry gives two units per id |
| Projects.TestUnits | lib/makeconf/project.rb:82-84 | a `tests` entry gives one test per id |
| Projects.StepLibrary | lib/makeconf/project.rb:76-80 | a `library` entry is one `build` of the entry's libraries |
| Projects.LibraryRecords | lib/makeconf/project.rb:197-198 | the install records of libraries all go to `$(LIBDIR)` |
| Projects.LibraryEntry | lib/makeconf/project.rb:76-80 | each id of a `library` entry yields a shared then a static library, both installed to `$(LIBDIR)` |
| Projects.LibraryUnitsAt | lib/makeconf/project.rb:77-80 | the `2i`-th unit is the shared and the `2i+1`-th the static library of the `i`-th id |
| Projects.BinaryEntry | lib/makeconf/project.rb:71-75 | each id of a `binary` entry gets the executable extension and the binary is pushed without an install record |
| Projects.BinaryUnitsAt | lib/makeconf/project.rb:72-75 | with String ids the binaries are made position by position |
| Projects.UnknownKeyRaises | lib/makeconf/project.rb:98-99 | an entry whose key the manifest does not know raises "Unrecognized entry" with key and value, `license_file` among them |
| Projects.UnsupportedKeysRaise | lib/makeconf/project.rb:91-94 | a `targets` entry always raises (a manifest value is never a Target), and `script`, `check_decl` and `check_func` raise `FIXME` |
| Projects.LoadedStopsAtError | lib/makeconf/project.rb:64-101 | the first entry that raises decides the error; later entries are never looked at |
| Projects.DistfileName | lib/makeconf/project.rb:305-307 | the archive name fails exactly when the id is not a String |
| Projects.DistfileNameSpec | lib/makeconf/project.rb:305-307 | the archive name is the id, a dash, the version and `.tar.gz`, so different versions give different archives |
| Projects.ProbeAll | lib/makeconf/project.rb:169-174 | the probing loop gives the specified results and the names it probed |
| Projects.Project.constructor | lib/makeconf/project.rb:15-48 | a new project has the default values of the modelled fields and the chosen license file |
| Projects.Project.Apply | lib/makeconf/project.rb:64-101 | one manifest entry changes the project as specified, or raises that entry's error |
| Projects.Project.AddBinaries | lib/makeconf/project.rb:71-75 | the `binary` entry appends its binaries to the build list, or raises for a non-String id |
| Projects.Project.Build | lib/makeconf/project.rb:193-210 | `build` leaves the specified state and fails with "Invalid argument" exactly when an argument is not a Buildable |
| Projects.Project.Test | lib/makeconf/project.rb:260-280 | `test` leaves the specified state and fails with "Invalid argument" exactly when an argument has no `build` |
| Projects.Project.Distribute | lib/makeconf/project.rb:221-225 | `distribute` appends one entry per pattern, the files the pattern matches |
| Projects.Project.Header | lib/makeconf/project.rb:228-235 | `header` appends one install record |
| Projects.Project.Manpage | lib/makeconf/project.rb:238-246 | `manpage` appends one install record, and raises without change for a non-String path |
| Projects.Project.Script | lib/makeconf/project.rb:249-257 | `script` appends one install record |
| Projects.Project.AddTarget | lib/makeconf/project.rb:334-337 | `target` appends the target |
| Projects.Project.CheckDecl | lib/makeconf/project.rb:162-175 | `check_decl` raises without change unless the header is a String and the names a String or an Array; otherwise the declarations are the specified probe results |
| Projects.Project.CheckFunc | lib/makeconf/project.rb:179-190 | `check_func` raises without change unless given a String or an Array; otherwise the functions are the specified probe results |
| Projects.Project.Sysdeps | lib/makeconf/project.rb:296-302 | `sysdeps` is strictly sorted and holds exactly the system headers some unit depends on |
| Projects.Project.Distfile | lib/makeconf/project.rb:305-307 | `distfile` is the specified archive name |
| Projects.Project.WriteConfigH | lib/makeconf/project.rb:310-331 | `write_config_h` writes the specified text |
| Projects.UnitSysdeps | lib/makeconf/project.rb:299 | one unit's system headers are exactly those some of its sources depend on |
| Projects.Load | lib/makeconf/project.rb:15-104 | `Project.new` returns a fresh project in the state of the loaded manifest, or the first entry's error |
| ProjectConfig.ProbedSpec | lib/makeconf/project.rb:169-174 | probing keeps every earlier result, records every name given, stores for a new name the verdict on its own program, and probes exactly the names not known before, each once |
| ProjectConfig.ProbedTwice | lib/makeconf/project.rb:170 | probing the same names again probes nothing and changes nothing |
| ProjectConfig.AllKnown | lib/makeconf/project.rb:185 | names that are all known are all skipped |
| ProjectConfig.StoredKeys | lib/makeconf/project.rb:314-316 | storing adds exactly the upcased keys of the names |
| ProjectConfig.StoredKeeps | lib/makeconf/project.rb:314-316 | a key no name is stored under keeps its value |
| ProjectConfig.StoredLast | lib/makeconf/project.rb:314-316 | where several names share a key, the last of them wins |
| ProjectConfig.ConfigLineShape | lib/makeconf/project.rb:322-328 | a key's line is `#define <MACRO> 1` exactly when its value is true and `#undef  <MACRO>` otherwise; the macro has no lower-case letter, `/`, `.` or `-` |
| ProjectConfig.ConfigLinesContain | lib/makeconf/project.rb:321-329 | every key listed has its line in the text |
| ProjectConfig.ConfigTextReports | lib/makeconf/project.rb:310-331 | `config.h` reports every key of the buffer with its value |
| ProjectConfig.UniqueIsLast | lib/makeconf/project.rb:314-316 | a name that alone has its key is the last of that key in sorted order |
| ProjectConfig.ConfigBufKeys | lib/makeconf/project.rb:312-316 | the buffer's keys are exactly `HAVE_<header>`, `HAVE_DECL_<decl>` and `HAVE_<func>`, upcased |
| ProjectConfig.StoredOwn | lib/makeconf/project.rb:314-316 | storing a map's results in sorted order leaves a name with a key of its own its result |
| ProjectConfig.StoredFree | lib/makeconf/project.rb:314-316 | storing a map's results keeps a key none of its names has |
| ProjectConfig.FuncResultKept | lib/makeconf/project.rb:316 | a function's result is never overwritten unless another function shares its key |
| ProjectConfig.DeclResultKept | lib/makeconf/project.rb:315-316 | a declaration's result survives unless another declaration or a function writes its key |
| ProjectConfig.HeaderResultKept | lib/makeconf/project.rb:314-316 | a header's result survives unless another header, a declaration or a function writes its key |
| ProjectConfig.ProducesInMap | lib/makeconf/project.rb:314-316 | over the sorted names of a map, a key is produced exactly when some name of the map has it |
| ProjectConfig.FuncReported | lib/makeconf/project.rb:310-331 | a function whose key no other function shares is reported by its `HAVE_` line, `#define` when it links |
| ProjectConfig.HeaderReported | lib/makeconf/project.rb:310-331 | a header with a key of its own is reported by its `HAVE_` line |
| ProjectConfig.StoredStep | lib/makeconf/project.rb:314-316 | storing one name then the rest is storing them all |
| ProjectConfig.Store | lib/makeconf/project.rb:314-316 | the storing loop gives the specified buffer |
| ProjectConfig.Lines | lib/makeconf/project.rb:321-329 | the writing loop gives the specified lines in order |
| ProjectConfig.WriteConfigH | lib/makeconf/project.rb:310-331 | the text of `config.h` is the banner followed by one line per key in sorted order |
| Tests.DebugFlags | lib/makeconf/test.rb:11 | a test gains `-g -O0` exactly when the host is not Windows |
| Tests.AndroidSuffixMatches | lib/makeconf/test.rb:18 | a host triple ending in `-androideabi` is an Android host |
| Tests.CheckAddedSpec | lib/makeconf/test.rb:15-24 | off Android, `check` gains the test as a dependency, once, and `./<id>` as its last rule, and nothing else changes; on Android the Makefile is returned as it was |
| Tests.Test.constructor | lib/makeconf/test.rb:4-12 | a test is neither installed nor distributed and keeps the parent's flags followed by the debug flags |
| Tests.Test.Build | trunk/lib/makeconf/test.rb:15-24 | `compile` returns the parent's Makefile with the `check` dependency and rule added off Android |
| Tests.Test.Install | trunk/lib/makeconf/test.rb:26-28 | a test program is never installed: the installer is untouched |
| Tests.Test.Link | trunk/lib/makeconf/test.rb:30-37 | off Windows `link` pushes `['rpath', '.']` onto the linker flags and changes nothing else |
| TrunkBuildables.InitialIvars | trunk/lib/makeconf/buildable.rb:9-38 | a new Buildable is enabled, distributable and installable, has empty flag and source lists, an empty rpath, the id as output and no output type |
| TrunkBuildables.CopyNonNilAt | trunk/lib/makeconf/buildable.rb:70-74 | the first `parse` loop copies exactly the listed YAML values that are present and not nil, keeping the rest |
| TrunkBuildables.CopyPresentAt | trunk/lib/makeconf/buildable.rb:77-79 | the second `parse` loop copies exactly the listed keys the YAML has, nil included |
| TrunkBuildables.ParsedAttribute | trunk/lib/makeconf/buildable.rb:69-82 | after `parse`, a scalar attribute is the YAML value unless that is nil or absent, a list attribute the YAML value whenever present, any other attribute unchanged |
| TrunkBuildables.ParsedKeys | trunk/lib/makeconf/buildable.rb:69-82 | `parse` adds exactly the attributes the YAML supplies |
| TrunkBuildables.ParseIdempotent | trunk/lib/makeconf/buildable.rb:69-82 | parsing the same YAML twice is parsing it once |
| TrunkBuildables.Buildable.constructor | trunk/lib/makeconf/buildable.rb:9-38 | the constructor sets the initial attributes and empty dependency maps |
| TrunkBuildables.Buildable.Parse | trunk/lib/makeconf/buildable.rb:69-82 | `parse` returns the receiver with its attributes parsed as specified |
| TrunkBuildables.Buildable.LibraryType | trunk/lib/makeconf/buildable.rb:88-97 | `library_type` succeeds exactly for a library and otherwise throws "Not a library" |
| TrunkBuildables.LibraryOutputsApart | trunk/lib/makeconf/library.rb:23-36 | a shared library's output is `lib` + id + the shared extension, a static one's id + the static extension, and the two never coincide |
| TrunkBuildables.NewSharedLibrary | trunk/lib/makeconf/library.rb:16-26 | `SharedLibrary.new` has the Buildable defaults with the shared output and type |
| TrunkBuildables.NewStaticLibrary | trunk/lib/makeconf/library.rb:32-41 | `StaticLibrary.new` has the Buildable defaults with the static output and type |
| TrunkBuildables.NewLibrary | trunk/lib/makeconf/library.rb:7-10 | `Library.new` makes two distinct Buildables, a shared library then a static library, with their outputs |
| Buildables.Validate | lib/makeconf/buildable.rb:21-31 | the validation loops give the specified result |
| Buildables.ResolvePrefixErr | lib/makeconf/buildable.rb:22-27 | once an option is missing, the options after it are never looked at |
| Buildables.FirstUnknownPrefix | lib/makeconf/buildable.rb:28-31 | the first unknown key of the caller's hash is found in the prefix that holds it |
| Buildables.ResolveOk | lib/makeconf/buildable.rb:22-27 | the option loop succeeds exactly when no option resolves to nil, and then sets each option, in order, to the caller's value or the default |
| Buildables.ResolveFirstMissing | lib/makeconf/buildable.rb:24-25 | the first option that resolves to nil raises "Missing argument" with its name |
| Buildables.FirstUnknownSpec | lib/makeconf/buildable.rb:28-31 | no key is reported exactly when every key of the caller's hash is an option; otherwise the first unknown key in hash order is |
| Buildables.MergedFirst | lib/makeconf/buildable.rb:21 | merging the subclass's options keeps the first default option first |
| Buildables.MergedKeepsDefault | lib/makeconf/buildable.rb:21 | a default the subclass does not override keeps its value |
| Buildables.MissingId | lib/makeconf/buildable.rb:10 | a Buildable made without an `:id` raises "Missing argument: `id'" |
| Buildables.ValidatedSpec | lib/makeconf/buildable.rb:8-31 | construction succeeds exactly when no option resolves to nil and every given key is an option; it then holds each option's caller value or default, in order |
| Buildables.NormalCflags | lib/makeconf/buildable.rb:32 | String cflags become one nested list of their space-separated words; any other value is kept |
| Buildables.LibraryTypeOf | lib/makeconf/buildable.rb:57-70 | `library_type` is `:shared` exactly for a shared library, `:static` exactly for a static one, and throws "Not a library" otherwise |
| Buildables.Buildable.constructor | lib/makeconf/buildable.rb:8-55 | the constructor keeps the validated options and the expanded sources, normalises cflags, names the output after the id, sets no output type and empty dependency maps |
| Buildables.NewBuildable | lib/makeconf/buildable.rb:8-55 | `Buildable.new` fails exactly as validation fails; otherwise it returns a fresh object with the validated options |
| Buildables.EarlyBuildable.constructor | trunk/buildable.rb:7-39 | the early constructor is the same with no dependency maps |
| Buildables.EarlyBuildable.SystemHeaders | trunk/buildable.rb:62-72 | `system_headers` is the sorted distinct include names of every source |
| Buildables.AllCapturesFrom | trunk/buildable.rb:64-70 | every name found comes from one of the sources |
| Buildables.AllCapturesOf | trunk/buildable.rb:64-70 | every include name of every source is found |
| TrunkMakeconf.LinkerTextLayout | trunk/makeconf.rb:149-160 | the linker text is a space, the `-L` flags, then one `-Wl,` token per recorded flag |
| TrunkMakeconf.RpathText | trunk/makeconf.rb:137-160 | after `rpath=` the linker text holds `-L <dir>` and the OS's rpath flag with the directory |
| TrunkMakeconf.Linker.constructor | trunk/makeconf.rb:115-118 | a new linker has no flags |
| TrunkMakeconf.Linker.Soname | trunk/makeconf.rb:125-129 | `soname` records `['soname', s]` except on Windows, where nothing changes |
| TrunkMakeconf.Linker.ExportDynamic | trunk/makeconf.rb:132-134 | `export_dynamic` records `export-dynamic` |
| TrunkMakeconf.Linker.SetRpath | trunk/makeconf.rb:137-146 | `rpath=` throws "Unsupported OS" without change exactly off Solaris and Linux; otherwise it records the OS's rpath flag and a `-L` search flag |
| TrunkMakeconf.Linker.Command | trunk/makeconf.rb:163-167 | `command` always throws `stub` |
| TrunkMakeconf.ScriptSetting | trunk/makeconf.rb:212-214 | a script setting is the manifest's value unless that is nil or absent, the default otherwise |
| TrunkMakeconf.Script.constructor | trunk/makeconf.rb:202-215 | a script keeps its id and Makefile, and takes sources, dest (default `$(BINDIR)`) and mode (default `755`) from the manifest, whatever their type |
| TrunkMakeconf.Script.Build | trunk/makeconf.rb:217-222 | `build` succeeds exactly when the sources are a list of names and dest and mode are Strings, and then distributes the sources and installs each one as specified |
| TrunkMakeconf.InstallNext | trunk/makeconf.rb:219-221 | one turn of the install loop installs the next source |
| TrunkMakeconf.UninstallRules | trunk/makeconf.rb:219-221 | one uninstall rule per source, in order |
| TrunkMakeconf.InstallRules | trunk/makeconf.rb:219-221 | one install rule per source, in order |
| TrunkMakeconf.InstalledStep | trunk/makeconf.rb:220 | installing one source creates the destination once, and appends its install and uninstall rules |
| TrunkMakeconf.InstalledFrame | trunk/makeconf.rb:220 | installing one source leaves every target but `install` and `uninstall` unchanged |
| TrunkMakeconf.InstalledEachMkdir | trunk/makeconf.rb:219-221 | the destination directory is created once, and only when some source is installed and it was not created before |
| TrunkMakeconf.InstalledEachUninstall | trunk/makeconf.rb:219-221 | `uninstall` gains one rule per source, in order |
| TrunkMakeconf.InstalledEachInstall | trunk/makeconf.rb:219-221 | `install` gains the directory rule when the directory is new, then one rule per source, in order |
| TrunkMakeconf.InstalledEachFrame | trunk/makeconf.rb:219-221 | the install loop leaves every other target unchanged |
| TrunkMakeconf.ScriptBuildRules | trunk/makeconf.rb:217-222 | a script's build distributes its sources and adds the install and uninstall rules of each, in order |
| TrunkMakeconf.Header.constructor | trunk/makeconf.rb:232-236 | a header keeps its path and the compiler's verdict on it |
| TrunkMakeconf.ConfigLine | trunk/makeconf.rb:244-251 | `to_config_h` is `#define HAVE_<ID> 1` exactly when the header exists and `#undef  HAVE_<ID>` otherwise; the id has no lower-case letter, `.` or `-` |
| Archivers.Nilable | trunk/lib/makeconf/archiver.rb:11-12 | an unset output or path is nil, a set one its String |
| Archivers.ArchiveTarget | trunk/lib/makeconf/archiver.rb:35-37 | `to_make` fails without an output; otherwise the target is named after the output, depends on the objects and has the command as its only rule |
| Archivers.AsWrittenRaises | trunk/lib/makeconf/archiver.rb:29 | as written, `command` and `to_make` raise NameError, since `flags` names no method or variable, while the intended command builds a target |
| Archivers.CommandWords | trunk/lib/makeconf/archiver.rb:29 | the intended command is the path, the flags, the output and the objects, joined by spaces |
| Archivers.CommandLayout | trunk/lib/makeconf/archiver.rb:29 | an unset path or output leaves an empty word, and the objects follow only when there are some |
| Archivers.DefaultCommand | trunk/lib/makeconf/archiver.rb:8-13 | with nothing set the intended command is ` cru ` |
| Archivers.Archiver.constructor | trunk/lib/makeconf/archiver.rb:8-17 | a new archiver has flags `cru`, no objects, no output, and the path from the environment's `LD` |
| Archivers.Archiver.SetPath | trunk/lib/makeconf/archiver.rb:20-26 | `path=` sets the path and nothing else |
| Archivers.Archiver.Command | trunk/lib/makeconf/archiver.rb:28-32 | `command` is the intended command text |
| Archivers.Archiver.ToMake | trunk/lib/makeconf/archiver.rb:35-37 | `to_make` is the intended archive target |
| Prototype.SpellingsAgree | configure.rb:32-62 | `rm` starts `del /F` and `cp` starts `copy` exactly on Windows targets (`rm -f` and `cp` otherwise), `cp` ends with the destination, and the null device and executable extension follow the same test |
| Prototype.RmArguments | configure.rb:36-45 | `rm` of an Array is the delete command followed by each path as one word, the same as `rm` of the paths joined by spaces |
| Prototype.CommandFlagsWords | configure.rb:97-99 | the compile flags are the cflags, then `-c` only when compile_only is 1, then `-o` and the output |
| Prototype.CommandWords | configure.rb:96-102 | the command line is the path, the flags, the flattened sources, ldadd and the log redirection, in that order |
| Prototype.CompileOnlyFlag | configure.rb:98 | `-c` is on the command line exactly when compile_only is 1; any other value gives the command of 0 |
| Prototype.RuleAppendsLine | configure.rb:136-148 | adding a rule appends one tab-indented line to the target's text |
| Prototype.RuleLinesContain | configure.rb:148 | every rule appears in the target's text as a tab-indented line |
| Prototype.TargetTextStart | configure.rb:145-147 | a target's text starts with a blank line and `name: `; with no dependencies that line ends at once |
| Prototype.ThreeRuleText | configure.rb:144-150 | a target with no dependencies and three rules renders as its header and three tab-indented lines |
| Prototype.DistTargetText | configure.rb:220-227 | the `dist` target removes and recreates `<project>-<version>` and runs `$(MAKE) distdir` with it |
| Prototype.TargetTextsContain | configure.rb:214 | the joined target texts contain each listed target's text |
| Prototype.VarLinesContain | configure.rb:211 | the variable lines contain `name op value` for each listed variable |
| Prototype.TextHasEveryTarget | configure.rb:208-216 | the Makefile text contains the text of every target |
| Prototype.SortedVarLinesContain | configure.rb:211 | the sorted variable lines contain the line of every variable |
| Prototype.TextHasEveryVariable | configure.rb:208-216 | the Makefile text contains the line of every variable |
| Prototype.TextHasRule | configure.rb:208-216 | the Makefile text contains every rule of every target as a tab-indented line |
| Prototype.TextHasDist | configure.rb:208-227 | the rendered Makefile contains the `dist` target built by `make_dist` |
| Prototype.DistributedCopied | configure.rb:179-181 | after `distribute(path)` the rendered Makefile holds the copy command for the path |
| Prototype.ProtoMakefile.constructor | configure.rb:154-164 | a new Makefile has no variables and one empty target for each of all, clean, distclean, install, uninstall and distdir |
| Prototype.ProtoMakefile.DefineVariable | configure.rb:166-168 | `define_variable` sets the variable to (op, rval) and leaves the targets alone |
| Prototype.ProtoMakefile.AddTarget | configure.rb:170-172 | `add_target` replaces the named target with a new one of the given dependencies and rules |
| Prototype.ProtoMakefile.AddRule | configure.rb:174-176 | `add_rule` appends the rule to the named existing target only |
| Prototype.ProtoMakefile.AddDependency | configure.rb:188-190 | `add_dependency` appends the dependency to the named existing target only |
| Prototype.ProtoMakefile.Distribute | configure.rb:179-181 | `distribute` appends the platform's copy into `$(distdir)` to `distdir` |
| Prototype.ProtoMakefile.Clean | configure.rb:184-186 | `clean` appends the platform's remove command to `clean` |
| Prototype.ProtoMakefile.MakeDist | configure.rb:220-227 | `make_dist` replaces the `dist` target with the three-rule distribution target |
| Prototype.ProtoMakefile.Text | configure.rb:208-216 | `to_s` runs `make_dist` and returns the variables sorted by name, `default: all`, then the targets sorted by name |
| Prototype.ProtoMakefile.Rendered | configure.rb:211-215 | the rendered text of the current state, without changing it |

## Left out

- Subprocesses, the file system, the environment and the clock. Compiler search and probes, `system`, `popen`, `Dir.glob`, `File.exists?`, temporary files, `ENV` and `RbConfig` become parameters: the host, the compiler path, the set of existing files, file contents as lines, preprocessor output as lines, and a test compile's verdict as a function.
- The YAML loader: a manifest is given as its parsed entries. Numbers in a manifest are kept as their text.
- Compiler `search`, `windows_init`, `has_option`, `test_compile` and `check_header` (lib and trunk compiler.rb): environment, subprocess and temporary-file work. The compiler path is a parameter.
- `default_flags` reads `Platform.word_size`, which is a parameter.
- Ruby's `inspect` is modelled without escaping: the quoted text of a string that holds no quote or backslash.
- `check_decl` elements that are not Strings, and duplicate keys in a manifest, are not modelled.
- project.rb's `configure`, `to_make`, `finalize`, `mount`, `compiler` and `library` helpers are not modelled: they configure or mount sub-objects through the parent constructors. `install(*arg)` is modelled only as far as it distributes.
- lib `Binary` and `Test` call their parent constructors with a different number of arguments. The parent constructors (Binary, Buildable) enter as parameters: the id and the flag lists they set.
- ExternalProject `configure` and `download` run commands and are not modelled.
- lib `StaticLibrary#build` and `Manual#link` are not modelled. `link` does nothing.
- A non-Hash options argument raises ArgumentError in the Buildable constructors; here options are always a Hash.
- `options.delete` changes the caller's Hash in place. Here the result is a new Hash, so the caller's Hash is not shown to change.
- TrunkBuildables.NewSharedLibrary and TrunkBuildables.NewStaticLibrary (trunk/lib/makeconf/library.rb:16-41): `super(options)` gives the whole options Hash to `Buildable.new` as its id, so `@id` and the default output hold that Hash. The model stores the `:id` String instead, because attributes hold Ruby scalar and list values.
- trunk/lib/makeconf/buildable.rb `cflags=` (58-67) is not modelled: `x.is_a?` without an argument raises before any branch, and `s` is undefined. `sources=` (40-56) is glob and file work. `binary?` and `finalize`, which does nothing, are not modelled.
- trunk/makeconf.rb: the `Binary` class (172-196) is not modelled, because it reads `@compiler` and `@makefile`, which nothing sets. The `Makeconf` class (18-107) is not modelled: it is option parsing and file output. The `check_exists` probe of `Header` (255-260) is a parameter (`present`).
- configure.rb:
  - `search`, `test_compile` and the `Header`, `Project`, `Buildable`, `Binary` and `Library` classes are not modelled: probing, the manifest and file writes.
  - `add_target` with nil or String dependencies is not modelled. Neither is `distribute` with an Array.
  - `add_deliverable` is not modelled: it reads undefined globals `$src` and `$dst` and the undefined constant `False`.
- The Makefile `merge!` methods adopt the other Makefile's Target objects, so both Makefiles share them. Here targets are values, so later changes through one Makefile are not seen through the other.
- makeconf.rb clones the compiler with a Marshal deep copy. That is modelled as a value copy.
- `Platform.pathspec` is the identity.
- The text of `ld.to_s` in lib and trunk compiler.rb is an opaque parameter, because those Linkers have no `to_s`.
- The lib `makedepends` raises ArgumentError on a line that is invalid in its encoding. Here source lines are decoded text.
- The "is broken" throw of makefile.rb's `to_s` is not modelled: every value in the target map is a Target.
- The packager, the GUI and the command-line front end are not modelled.
- Projects.Project.constructor: the `summary`, `description`, `license`, `author` and `config_h` defaults (lib/makeconf/project.rb:18-22), the packager, and the nil installer and Makefile are not fields of the model: no modelled operation reads them.
- TrunkBuildables.NewSharedLibrary: the `@abi_major = 0` and `@abi_minor = 0` settings (trunk/lib/makeconf/library.rb:21-22) are not modelled, because nothing in the modelled core reads them.
- HeaderFiles.Header.Build and HeaderFiles.NamespacedHeader.Build take the installer as a parameter. The source reads it through `@project`, which trunk's Buildable never sets, so trunk `build` raises NoMethodError on nil after the Makefile is made; the tag's Buildable, which may set it, is not part of this model.
- TrunkMakeconf.Script.Build: settings of the wrong type are refused before any change. Ruby would first distribute a String `sources` and then fail on `each`, and what `install` does with a dest or mode that is not a String is not modelled.
- Platform.DevNull: states only that the result starts with an output redirection, not which of the two spellings is chosen.
- Platform.DevNullStderr: states only that the result starts with a standard-error redirection, not which spelling is chosen.

## Findings

| source | as written | input that shows it | evidently intended | confidence | as-written member | corrected member |
|---|---|---|---|---|---|---|
| trunk/platform.rb:69-79 | `mkdir` single-quotes the space-joined list, so the shell sees one directory name holding spaces | `mkdir(['a', 'b'])` gives `umask 22 ; mkdir -p 'a b'` | one `mkdir -p` argument per directory | not executed | Platform.MkdirAsWrittenMergesDirectories | Platform.MkdirArguments |
| makeconf.rb:537-548 | the cl.exe flag filter's `gsub(/ -Wno-.*? /, ' ')` consumes the space that the next flag needs, so of two adjacent matching flags the second survives | cflags ` -Wno-a -Wno-b ` become ` -Wno-b ` | every listed flag removed | not executed | LegacyToolchain.ClFilterAsWrittenKeepsSecond | LegacyToolchain.ClFilterRemovesAll |
| lib/makeconf/linker.rb:67 | the Windows output option `/OUT:"<out>` opens a double quote that nothing closes | any Windows link with output `foo.dll` | `/OUT:"<out>"` | not executed | Linkers.OutTokenUnclosed | Linkers.QuotedOutTokenBalanced |
| trunk/lib/makeconf/linker.rb:90-99 | `flags=` with a String pushes its split words as one nested element, which renders as a pair option or fails | `flags = 'x'` makes `flags` raise; `flags = 'a b c'` gives `-Wl,-a,b` and drops `c` | each word recorded as its own option | not executed | TrunkLinkers.OneWordFlagsFail | Linkers.StringFlagsRendered |
| trunk/lib/makeconf/archiver.rb:29 | `command` reads `flags`, which the class never defines, so `command` and `to_make` raise NameError | any archiver, e.g. with output `libfoo.a` and one object | `@flags` in the command | not executed | Archivers.AsWrittenRaises | Archivers.CommandWords |
