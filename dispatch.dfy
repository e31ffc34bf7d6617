/**
 * src/ComputePipelineState.cpp: the wrapper that creates a compute pipeline, sizes a
 * dispatch grid for a context size and dispatches it; and `assertNSError` of
 * src/Utils.cpp, which ends the process when pipeline creation reports an error.
 */
module Dispatch {
  import opened Base
  import opened Gpu

  /** The exit status `assertNSError` passes to `exit`. */
  const EXIT_ON_ERROR: int := -1

  /** `assertNSError`, src/Utils.cpp:3-8: `None` when there is no error, else the process exit status. */
  function AssertNSError(err: Option<string>): (exit: Option<int>)
    ensures exit.Some? <==> err.Some?
    ensures exit.Some? ==> exit.value == EXIT_ON_ERROR
  {
    if err.Some? then Some(EXIT_ON_ERROR) else None
  }

  /**
   * What Metal promises of every compute pipeline: a positive SIMD width that divides
   * into the maximum thread-group size at least once. The integer divisions of the
   * sizing code need no more than that.
   */
  predicate Sizable(threadWidth: nat, maxTotal: nat)
  {
    threadWidth > 0 && maxTotal >= threadWidth
  }

  /** Threads per group: a SIMD-width row, as many rows as fit, depth 1 (src/ComputePipelineState.cpp:8-10, 16). */
  function ThreadsPerGroup(threadWidth: nat, maxTotal: nat): (t: Size)
    requires Sizable(threadWidth, maxTotal)
    ensures t.width > 0 && t.height > 0 && t.depth == 1
    ensures t.width * t.height * t.depth <= maxTotal
    ensures maxTotal < t.width * (t.height + 1)
  {
    Size(threadWidth, maxTotal / threadWidth, 1)
  }

  /** Groups per grid: a ceiling division on each axis (src/ComputePipelineState.cpp:11-15). */
  function GroupsPerGrid(context: Size, threads: Size): Size
    requires threads.width > 0 && threads.height > 0 && threads.depth > 0
  {
    Size(CeilDiv(context.width, threads.width), CeilDiv(context.height, threads.height),
         CeilDiv(context.depth, threads.depth))
  }

  /** The grid of `groups` thread groups of `threads` covers `context` on every axis. */
  predicate Covers(groups: Size, threads: Size, context: Size)
  {
    groups.width * threads.width >= context.width
    && groups.height * threads.height >= context.height
    && groups.depth * threads.depth >= context.depth
  }

  /** No axis has a surplus group: dropping the last one on any axis leaves part of the context uncovered. */
  predicate Minimal(groups: Size, threads: Size, context: Size)
  {
    (context.width > 0 ==> (groups.width - 1) * threads.width < context.width)
    && (context.height > 0 ==> (groups.height - 1) * threads.height < context.height)
    && (context.depth > 0 ==> (groups.depth - 1) * threads.depth < context.depth)
    && (context.width == 0 ==> groups.width == 0)
    && (context.height == 0 ==> groups.height == 0)
    && (context.depth == 0 ==> groups.depth == 0)
  }

  /** The grid the sizing code computes covers the context, with no surplus group, and its depth equals the context's. */
  lemma GridFits(context: Size, threadWidth: nat, maxTotal: nat)
    requires Sizable(threadWidth, maxTotal)
    ensures var t := ThreadsPerGroup(threadWidth, maxTotal);
      var g := GroupsPerGrid(context, t);
      Covers(g, t, context) && Minimal(g, t, context) && g.depth == context.depth
  {
  }

  /** A compute pipeline with the grid it dispatches, `ComputePipelineState`. */
  class ComputePipelineState {
    const pipeline: Pipeline
    const threadgroupsPerGrid: Size
    const threadsPerThreadgroup: Size

    /** src/ComputePipelineState.cpp:3-17 once the pipeline exists without error. */
    constructor (pipeline: Pipeline, contextSize: Size)
      requires Sizable(pipeline.threadExecutionWidth, pipeline.maxTotalThreadsPerThreadgroup)
      ensures this.pipeline == pipeline
      ensures threadsPerThreadgroup == ThreadsPerGroup(pipeline.threadExecutionWidth, pipeline.maxTotalThreadsPerThreadgroup)
      ensures threadgroupsPerGrid == GroupsPerGrid(contextSize, threadsPerThreadgroup)
      ensures Covers(threadgroupsPerGrid, threadsPerThreadgroup, contextSize)
      ensures Minimal(threadgroupsPerGrid, threadsPerThreadgroup, contextSize)
    {
      this.pipeline := pipeline;
      var threadgroupWidth := pipeline.threadExecutionWidth;
      var threadgroupHeight := pipeline.maxTotalThreadsPerThreadgroup / threadgroupWidth;
      var threadgroupDepth := 1;
      var threads := Size(threadgroupWidth, threadgroupHeight, threadgroupDepth);
      threadgroupsPerGrid := Size(
        (contextSize.width + threadgroupWidth - 1) / threadgroupWidth,
        (contextSize.height + threadgroupHeight - 1) / threadgroupHeight,
        (contextSize.depth + threadgroupDepth - 1) / threadgroupDepth);
      threadsPerThreadgroup := threads;
      new;
      GridFits(contextSize, pipeline.threadExecutionWidth, pipeline.maxTotalThreadsPerThreadgroup);
    }

    /** `dispatch`, src/ComputePipelineState.cpp:23-26: bind the pipeline and dispatch the stored grid unchanged. */
    method Dispatch(cmd: CommandBuffer)
      modifies cmd
      ensures cmd.commands == old(cmd.commands)
        + [SetPipeline(pipeline), DispatchThreadgroups(threadgroupsPerGrid, threadsPerThreadgroup)]
    {
      cmd.commands := cmd.commands + [SetPipeline(pipeline)];
      cmd.commands := cmd.commands + [DispatchThreadgroups(threadgroupsPerGrid, threadsPerThreadgroup)];
    }
  }

  /**
   * The whole constructor: `newComputePipelineState` yields a pipeline and maybe an
   * error; an error ends the process through `assertNSError` with status -1. `err` is
   * what `pErr` holds when `assertNSError` reads it, taken as written by the call.
   */
  method Create(pipeline: Pipeline, err: Option<string>, contextSize: Size)
    returns (r: Result<ComputePipelineState, int>)
    requires err.None? ==> Sizable(pipeline.threadExecutionWidth, pipeline.maxTotalThreadsPerThreadgroup)
    ensures r.Err? <==> err.Some?
    ensures r.Err? ==> r.error == EXIT_ON_ERROR
    ensures r.Ok? ==> fresh(r.value) && r.value.pipeline == pipeline
    ensures r.Ok? ==> Covers(r.value.threadgroupsPerGrid, r.value.threadsPerThreadgroup, contextSize)
    ensures r.Ok? ==> Minimal(r.value.threadgroupsPerGrid, r.value.threadsPerThreadgroup, contextSize)
  {
    var exit := AssertNSError(err);
    if exit.Some? {
      return Err(exit.value);
    }
    var state := new ComputePipelineState(pipeline, contextSize);
    r := Ok(state);
  }
}
