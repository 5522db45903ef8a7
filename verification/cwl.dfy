/** Translation of a physical graph into a Common Workflow Language
    workflow (daliuge-translator/dlg/dropmake/cwl.py). The workflow,
    its steps and the command-line tools are plain records here instead of
    `cwlgen` objects; writing them out as YAML and zipping the files is I/O
    and not part of this model. */
module CwlTranslator {
  import opened Common
  import opened PhysicalGraph

  /** Only drops of this type become workflow steps. */
  const BashShellApp: string := "BashShellApp"
  const CwlVersion: string := "v1.0"

  function StepName(index: nat): string { "step" + NatToString(index) }
  function InputName(i: nat): string { "input_file_" + NatToString(i) }
  function OutputName(i: nat): string { "output_file_" + NatToString(i) }

  /** Where the first output of the drop at `index` is found in the workflow. */
  function OutputSource(index: nat): string { StepName(index) + "/output_file_0" }

  datatype StepInput = StepInput(id: string, source: string)
  datatype WorkflowStep = WorkflowStep(id: string, run: string, inputs: seq<StepInput>, out: seq<string>)
  datatype Workflow = Workflow(id: string, labelText: string, doc: string, cwlVersion: string, steps: seq<WorkflowStep>)

  datatype InputParameter = InputParameter(id: string, paramType: string, position: Option<nat>, doc: string)
  datatype OutputParameter = OutputParameter(id: string, paramType: string, doc: string)
  datatype CommandLineTool = CommandLineTool(
    toolId: string, labelText: string, baseCommand: string, cwlVersion: string,
    inputs: seq<InputParameter>, outputs: seq<OutputParameter>)

  /** Everything create_workflow produces: the workflow, the paths of the
      per-step tool files (in the order they are zipped) and the tools
      written to them. */
  datatype Translation = Translation(workflow: Workflow, stepFiles: seq<string>, tools: seq<CommandLineTool>)

  /** The exceptions create_command_line_tool raises. */
  datatype ToolError =
    | MissingName          // node['nm'] is absent
    | CommandWithoutSpace  // command.index(" ") finds no space
    | MissingApp           // node['app'] is absent

  /** The exceptions create_workflow raises, with the index of the drop. */
  datatype CwlError =
    | ToolFailed(index: nat, cause: ToolError)
    | UnknownInput(index: nat, oid: string)  // files[input] is a KeyError

  // ---------------------------------------------------------------------
  // create_command_line_tool
  // ---------------------------------------------------------------------

  /** Position of the first `c` in `s`, as `s.index(c)`; None where that raises. */
  function FirstIndexOf(s: string, c: char): (r: Option<nat>)
    ensures r.None? <==> c !in s
    ensures r.Some? ==> r.value < |s| && s[r.value] == c && c !in s[..r.value]
    decreases |s|
  {
    if s == [] then None
    else if s[0] == c then Some(0)
    else match FirstIndexOf(s[1..], c)
         case None => None
         case Some(i) =>
           assert s[..i + 1] == [s[0]] + s[1..][..i];
           Some(i + 1)
  }

  /** `b` is the part of `command` before its first space. */
  ghost predicate IsBaseCommand(b: string, command: string)
  {
    |b| < |command| && command[..|b|] == b && command[|b|] == ' ' && ' ' !in b
  }

  function FileInput(i: nat): InputParameter
  {
    InputParameter(InputName(i), "File", Some(i), "input file " + NatToString(i))
  }

  const DummyInput: InputParameter := InputParameter("dummy", "null", None, "dummy")

  function StdoutOutput(i: nat): OutputParameter
  {
    OutputParameter(OutputName(i), "stdout", "output file " + NatToString(i))
  }

  /** `t` is the tool description of `node`: identified by its app, labelled
      by its name, running the base command, one File input bound at
      position i per input (or a single null `dummy` input when there are
      none), and one stdout output per output. */
  ghost predicate DescribesTool(t: CommandLineTool, node: Drop): (ok: bool)
    ensures ok ==> node.nm.Some? && node.app.Some? && ' ' in node.command
    ensures ok ==> |t.inputs| == (if |node.inputs| == 0 then 1 else |node.inputs|)
  {
    && node.nm.Some? && node.app.Some?
    && t.toolId == node.app.value && t.labelText == node.nm.value && t.cwlVersion == CwlVersion
    && IsBaseCommand(t.baseCommand, node.command)
    && (|node.inputs| == 0 ==> t.inputs == [DummyInput])
    && (|node.inputs| > 0 ==>
          |t.inputs| == |node.inputs| && forall i :: 0 <= i < |t.inputs| ==> t.inputs[i] == FileInput(i))
    && |t.outputs| == |node.outputs|
    && (forall i :: 0 <= i < |t.outputs| ==> t.outputs[i] == StdoutOutput(i))
  }

  /** Which exception, if any, create_command_line_tool raises for `node`;
      the name is read first, then the command is cut, then the app is read. */
  function ToolProblem(node: Drop): (r: Option<ToolError>)
    ensures r.None? <==> node.nm.Some? && ' ' in node.command && node.app.Some?
    ensures r == Some(CommandWithoutSpace) ==> node.nm.Some?
    ensures r == Some(MissingApp) ==> node.nm.Some? && ' ' in node.command
  {
    if node.nm.None? then Some(MissingName)
    else if ' ' !in node.command then Some(CommandWithoutSpace)
    else if node.app.None? then Some(MissingApp)
    else None
  }

  /** create_command_line_tool(node, filename) */
  method CreateCommandLineTool(node: Drop) returns (r: Result<CommandLineTool, ToolError>)
    ensures r.Failure? <==> node.nm.None? || ' ' !in node.command || node.app.None?
    ensures r.Failure? ==> Some(r.error) == ToolProblem(node)
    ensures r.Success? ==> DescribesTool(r.value, node)
  {
    if node.nm.None? {
      return Failure(MissingName);
    }
    var cut := FirstIndexOf(node.command, ' ');
    if cut.None? {
      return Failure(CommandWithoutSpace);
    }
    var baseCommand := node.command[..cut.value];
    if node.app.None? {
      return Failure(MissingApp);
    }

    var inputs: seq<InputParameter> := [];
    var i := 0;
    while i < |node.inputs|
      invariant 0 <= i <= |node.inputs| && |inputs| == i
      invariant forall j :: 0 <= j < i ==> inputs[j] == FileInput(j)
    {
      inputs := inputs + [FileInput(i)];
      i := i + 1;
    }
    if |node.inputs| == 0 {
      inputs := inputs + [DummyInput];
    }

    var outputs: seq<OutputParameter> := [];
    i := 0;
    while i < |node.outputs|
      invariant 0 <= i <= |node.outputs| && |outputs| == i
      invariant forall j :: 0 <= j < i ==> outputs[j] == StdoutOutput(j)
    {
      outputs := outputs + [StdoutOutput(i)];
      i := i + 1;
    }

    r := Success(CommandLineTool(node.app.value, node.nm.value, baseCommand, CwlVersion, inputs, outputs));
  }

  // ---------------------------------------------------------------------
  // create_workflow
  // ---------------------------------------------------------------------

  predicate IsBash(node: Drop) { node.dt == BashShellApp }

  /** The drop's first output is `oid`. */
  predicate Produces(node: Drop, oid: string) { |node.outputs| > 0 && node.outputs[0] == oid }

  /** The `files` dictionary after the first loop has visited the first `n`
      drops: each drop with outputs maps its first output to its step. */
  function OutputFiles(pg: Graph, n: nat): map<string, string>
    requires n <= |pg|
    decreases n
  {
    if n == 0 then map[]
    else
      var files := OutputFiles(pg, n - 1);
      if |pg[n - 1].outputs| > 0 then files[pg[n - 1].outputs[0] := OutputSource(n - 1)] else files
  }

  /** An oid is registered exactly when some drop's first output is that
      oid; later outputs of a drop are never registered. */
  lemma {:induction false} OutputFilesDomain(pg: Graph, n: nat, oid: string)
    requires n <= |pg|
    ensures oid in OutputFiles(pg, n) <==> exists i :: 0 <= i < n && Produces(pg[i], oid)
    decreases n
  {
    if n > 0 {
      OutputFilesDomain(pg, n - 1, oid);
    }
  }

  /** A registered oid points at the LAST drop producing it: a later drop
      overwrites the entry of an earlier one. */
  lemma {:induction false} OutputFilesLastWriter(pg: Graph, n: nat, oid: string, i: nat)
    requires i < n <= |pg| && Produces(pg[i], oid)
    requires forall j :: i < j < n ==> !Produces(pg[j], oid)
    ensures oid in OutputFiles(pg, n) && OutputFiles(pg, n)[oid] == OutputSource(i)
    decreases n
  {
    if i < n - 1 {
      OutputFilesLastWriter(pg, n - 1, oid, i);
      assert !Produces(pg[n - 1], oid);
    }
  }

  /** Indices of the BashShellApp drops among the first `n`, in order. */
  function BashIndices(pg: Graph, n: nat): (idx: seq<nat>)
    requires n <= |pg|
    ensures forall k :: 0 <= k < |idx| ==> idx[k] < n && IsBash(pg[idx[k]])
    decreases n
  {
    if n == 0 then []
    else BashIndices(pg, n - 1) + (if IsBash(pg[n - 1]) then [n - 1] else [])
  }

  /** The steps are exactly the BashShellApp drops, in graph order: the
      indices are increasing, each names a BashShellApp drop, and every
      BashShellApp drop is among them. */
  lemma {:induction false} BashIndicesLaw(pg: Graph, n: nat)
    requires n <= |pg|
    ensures forall k, l :: 0 <= k < l < |BashIndices(pg, n)| ==> BashIndices(pg, n)[k] < BashIndices(pg, n)[l]
    ensures forall j :: 0 <= j < n && IsBash(pg[j]) ==> j in BashIndices(pg, n)
    decreases n
  {
    if n > 0 {
      BashIndicesLaw(pg, n - 1);
    }
  }

  /** Step names are distinct, so no two steps of a workflow collide. */
  lemma StepNamesDistinct(i: nat, j: nat)
    requires i != j
    ensures StepName(i) != StepName(j)
  {
    if StepName(i) == StepName(j) {
      assert StepName(i)[4..] == NatToString(i);
      assert StepName(j)[4..] == NatToString(j);
      NatToStringInjective(i, j);
    }
  }

  /** The first input of a step that `files` does not know. */
  function FirstMissing(inputs: seq<string>, files: map<string, string>): (r: Option<string>)
    ensures r.None? <==> forall j :: 0 <= j < |inputs| ==> inputs[j] in files
    ensures r.Some? ==> exists j :: (0 <= j < |inputs| && inputs[j] == r.value && r.value !in files
      && forall j' :: 0 <= j' < j ==> inputs[j'] in files)
    decreases |inputs|
  {
    if inputs == [] then None
    else if inputs[0] !in files then Some(inputs[0])
    else
      var r := FirstMissing(inputs[1..], files);
      if r.Some? then
        ghost var j :| 0 <= j < |inputs[1..]| && inputs[1..][j] == r.value && r.value !in files
          && forall j' :: 0 <= j' < j ==> inputs[1..][j'] in files;
        assert inputs[j + 1] == r.value;
        r
      else r
  }

  lemma FirstMissingAt(inputs: seq<string>, files: map<string, string>, i: nat)
    requires i < |inputs| && inputs[i] !in files
    requires forall j :: 0 <= j < i ==> inputs[j] in files
    ensures FirstMissing(inputs, files) == Some(inputs[i])
    decreases i
  {
    if i > 0 {
      FirstMissingAt(inputs[1..], files, i - 1);
    }
  }

  /** Which exception, if any, a BashShellApp drop at `index` raises: the tool
      description is built first, then the step inputs are looked up. */
  function NodeProblem(node: Drop, index: nat, files: map<string, string>): Option<CwlError>
  {
    match ToolProblem(node)
    case Some(cause) => Some(ToolFailed(index, cause))
    case None =>
      match FirstMissing(node.inputs, files)
      case Some(oid) => Some(UnknownInput(index, oid))
      case None => None
  }

  /** `s`, `path` and `t` are the step, the tool file and the tool made for
      the drop at `index`: the step is `step<index>` running
      `step<index>.cwl`, input j is `input_file_j` fed from the step that
      produces the drop's j-th input, and output j is `output_file_j`. */
  ghost predicate StepMatches(node: Drop, index: nat, files: map<string, string>, pgtPath: string,
                              s: WorkflowStep, path: string, t: CommandLineTool): (ok: bool)
    ensures ok ==> s.run == s.id + ".cwl" && |path| >= |s.run|
    ensures ok ==> forall j :: 0 <= j < |node.inputs| ==> node.inputs[j] in files
  {
    && s.id == StepName(index) && s.run == StepName(index) + ".cwl"
    && path == PathJoin(pgtPath, s.run)
    && |s.inputs| == |node.inputs|
    && (forall j :: 0 <= j < |node.inputs| ==>
          node.inputs[j] in files && s.inputs[j] == StepInput(InputName(j), files[node.inputs[j]]))
    && |s.out| == |node.outputs|
    && (forall j :: 0 <= j < |node.outputs| ==> s.out[j] == OutputName(j))
    && DescribesTool(t, node)
  }

  /** What one BashShellApp drop contributes to the translation. */
  datatype StepParts = StepParts(step: WorkflowStep, path: string, tool: CommandLineTool)

  /** The files dictionary create_workflow builds in its first pass. */
  method CollectOutputFiles(pg: Graph) returns (files: map<string, string>)
    ensures files == OutputFiles(pg, |pg|)
  {
    files := map[];
    var index := 0;
    while index < |pg|
      invariant 0 <= index <= |pg|
      invariant files == OutputFiles(pg, index)
    {
      var outputs := pg[index].outputs;
      if |outputs| > 0 {
        files := files[outputs[0] := OutputSource(index)];
      }
      index := index + 1;
    }
  }

  /** The body of create_workflow's second pass for one BashShellApp drop:
      the tool description, the tool file's path and the workflow step. */
  method CreateStep(node: Drop, index: nat, files: map<string, string>, pgtPath: string)
    returns (r: Result<StepParts, CwlError>)
    ensures r.Failure? <==> NodeProblem(node, index, files).Some?
    ensures r.Failure? ==> NodeProblem(node, index, files) == Some(r.error)
    ensures r.Success? ==> StepMatches(node, index, files, pgtPath, r.value.step, r.value.path, r.value.tool)
  {
    // the command line tool description
    var run := StepName(index) + ".cwl";
    var tool := CreateCommandLineTool(node);
    if tool.Failure? {
      return Failure(ToolFailed(index, tool.error));
    }
    var path := PathJoin(pgtPath, run);

    // the step's inputs, each fed by the step producing it
    var stepInputs: seq<StepInput> := [];
    var i := 0;
    while i < |node.inputs|
      invariant 0 <= i <= |node.inputs| && |stepInputs| == i
      invariant forall j :: 0 <= j < i ==>
        node.inputs[j] in files && stepInputs[j] == StepInput(InputName(j), files[node.inputs[j]])
    {
      var input := node.inputs[i];
      if input !in files {
        FirstMissingAt(node.inputs, files, i);
        return Failure(UnknownInput(index, input));
      }
      stepInputs := stepInputs + [StepInput(InputName(i), files[input])];
      i := i + 1;
    }

    // its outputs
    var out: seq<string> := [];
    i := 0;
    while i < |node.outputs|
      invariant 0 <= i <= |node.outputs| && |out| == i
      invariant forall j :: 0 <= j < i ==> out[j] == OutputName(j)
    {
      out := out + [OutputName(i)];
      i := i + 1;
    }
    r := Success(StepParts(WorkflowStep(StepName(index), run, stepInputs, out), path, tool.value));
  }

  /** create_workflow(pg_spec, pgt_path, cwl_path, zip_path): one step per
      BashShellApp drop, in graph order, or the exception of the first drop
      that raises. */
  method CreateWorkflow(pg: Graph, pgtPath: string) returns (r: Result<Translation, CwlError>)
    ensures r.Success? <==>
      forall j :: 0 <= j < |pg| && IsBash(pg[j]) ==> NodeProblem(pg[j], j, OutputFiles(pg, |pg|)).None?
    ensures r.Failure? ==>
      exists j :: (0 <= j < |pg| && IsBash(pg[j]) && NodeProblem(pg[j], j, OutputFiles(pg, |pg|)) == Some(r.error)
        && forall j' :: 0 <= j' < j && IsBash(pg[j']) ==> NodeProblem(pg[j'], j', OutputFiles(pg, |pg|)).None?)
    ensures r.Success? ==>
      var w := r.value.workflow;
      var idx := BashIndices(pg, |pg|);
      && w.id == "" && w.labelText == "" && w.doc == "" && w.cwlVersion == CwlVersion
      && |w.steps| == |idx| && |r.value.stepFiles| == |idx| && |r.value.tools| == |idx|
      && forall k :: 0 <= k < |idx| ==>
           StepMatches(pg[idx[k]], idx[k], OutputFiles(pg, |pg|), pgtPath,
                       w.steps[k], r.value.stepFiles[k], r.value.tools[k])
  {
    // look for the output files in the graph
    var files := CollectOutputFiles(pg);

    // add the steps to the workflow
    var steps: seq<WorkflowStep> := [];
    var stepFiles: seq<string> := [];
    var tools: seq<CommandLineTool> := [];
    var index := 0;
    ghost var idx: seq<nat> := [];
    while index < |pg|
      invariant 0 <= index <= |pg|
      invariant idx == BashIndices(pg, index)
      invariant |steps| == |idx| && |stepFiles| == |steps| && |tools| == |steps|
      invariant forall k :: 0 <= k < |steps| ==>
        StepMatches(pg[idx[k]], idx[k], files, pgtPath, steps[k], stepFiles[k], tools[k])
      invariant forall j :: 0 <= j < index && IsBash(pg[j]) ==> NodeProblem(pg[j], j, files).None?
    {
      if pg[index].dt == BashShellApp {
        var parts := CreateStep(pg[index], index, files, pgtPath);
        if parts.Failure? {
          return Failure(parts.error);
        }
        steps := steps + [parts.value.step];
        stepFiles := stepFiles + [parts.value.path];
        tools := tools + [parts.value.tool];
        idx := idx + [index];
      }
      index := index + 1;
    }
    r := Success(Translation(Workflow("", "", "", CwlVersion, steps), stepFiles, tools));
  }
}
