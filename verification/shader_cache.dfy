/**
 The blitter's two shader modules (vertex and fragment), created lazily on first use
 and destroyed at shutdown. Calls into the device are recorded in `calls`; the driver's
 handle allocator is a counter that hands out a fresh non-null handle per creation.
 */
module ShaderCache {

  datatype ModuleHandle = NullModule | Module(id: nat)

  datatype ShaderStage = VertexStage | FragmentStage

  /** A `vkCreateShaderModule` or `vkDestroyShaderModule` call. */
  datatype DeviceCall =
    | CreateShaderModule(stage: ShaderStage, handle: ModuleHandle)
    | DestroyShaderModule(handle: ModuleHandle)

  datatype Cache = Cache(
    hasDevice: bool,
    vertex: ModuleHandle,
    fragment: ModuleHandle,
    calls: seq<DeviceCall>,
    nextHandle: nat)

  /** A cache as the blitter's constructor leaves it: no module created yet. */
  function Fresh(hasDevice: bool): (c: Cache)
    ensures c.vertex == NullModule && c.fragment == NullModule
    ensures CreateCount(c.calls) == 0 && DestroyCount(c.calls) == 0
  {
    Cache(hasDevice, NullModule, NullModule, [], 0)
  }

  function CreateCount(calls: seq<DeviceCall>): nat {
    if |calls| == 0 then 0
    else (if calls[0].CreateShaderModule? then 1 else 0) + CreateCount(calls[1..])
  }

  function DestroyCount(calls: seq<DeviceCall>): nat {
    if |calls| == 0 then 0
    else (if calls[0].DestroyShaderModule? then 1 else 0) + DestroyCount(calls[1..])
  }

  /** How many times `h` has been handed to `vkDestroyShaderModule`. */
  function TimesDestroyed(calls: seq<DeviceCall>, h: ModuleHandle): nat {
    if |calls| == 0 then 0
    else (if calls[0] == DestroyShaderModule(h) then 1 else 0) + TimesDestroyed(calls[1..], h)
  }

  lemma {:induction false} CountsDistribute(a: seq<DeviceCall>, b: seq<DeviceCall>)
    ensures CreateCount(a + b) == CreateCount(a) + CreateCount(b)
    ensures DestroyCount(a + b) == DestroyCount(a) + DestroyCount(b)
    ensures forall h :: TimesDestroyed(a + b, h) == TimesDestroyed(a, h) + TimesDestroyed(b, h)
  {
    if |a| == 0 {
      assert a + b == b;
    } else {
      assert (a + b)[1..] == a[1..] + b;
      CountsDistribute(a[1..], b);
    }
  }

  /** The counts of a two-call log, one call at a time. */
  lemma CountsOfPair(x: DeviceCall, y: DeviceCall)
    ensures CreateCount([x, y]) == (if x.CreateShaderModule? then 1 else 0) + (if y.CreateShaderModule? then 1 else 0)
    ensures DestroyCount([x, y]) == (if x.DestroyShaderModule? then 1 else 0) + (if y.DestroyShaderModule? then 1 else 0)
    ensures forall h :: TimesDestroyed([x, y], h)
                     == (if x == DestroyShaderModule(h) then 1 else 0) + (if y == DestroyShaderModule(h) then 1 else 0)
  {
    assert [x, y][1..] == [y];
    assert [y][1..] == [];
    assert CreateCount([y]) == (if y.CreateShaderModule? then 1 else 0);
    assert DestroyCount([y]) == (if y.DestroyShaderModule? then 1 else 0);
    forall h
      ensures TimesDestroyed([x, y], h)
           == (if x == DestroyShaderModule(h) then 1 else 0) + (if y == DestroyShaderModule(h) then 1 else 0)
    {
      assert TimesDestroyed([y], h) == (if y == DestroyShaderModule(h) then 1 else 0);
    }
  }

  /**
   The cache's invariant: the two handles are set together, set handles are distinct,
   came from the allocator, and the log holds exactly one creation per set handle.
   */
  predicate Consistent(c: Cache) {
    && (c.vertex == NullModule <==> c.fragment == NullModule)
    && CreateCount(c.calls) == (if c.vertex == NullModule then 0 else 2)
    && (c.vertex != NullModule ==>
          c.vertex != c.fragment && c.vertex.id < c.nextHandle && c.fragment.id < c.nextHandle)
  }

  /** The modules exist: the blitter may use them. */
  predicate Ready(c: Cache) {
    c.vertex != NullModule && c.fragment != NullModule
  }

  /**
   `lazyInit`: nothing when the vertex module is already set; otherwise the device must
   exist (an invariant of the program) and the vertex module is created, then the
   fragment module.
   */
  function LazyInit(c: Cache): (r: Cache)
    requires c.vertex != NullModule || c.hasDevice
    ensures r.vertex != NullModule
    ensures c.vertex != NullModule ==> r == c
    ensures c.vertex == NullModule ==>
      && r.hasDevice == c.hasDevice
      && r.calls == c.calls + [CreateShaderModule(VertexStage, r.vertex),
                               CreateShaderModule(FragmentStage, r.fragment)]
      && r.vertex.Module? && r.fragment.Module? && r.vertex != r.fragment
      && c.nextHandle <= r.vertex.id < r.nextHandle
      && c.nextHandle <= r.fragment.id < r.nextHandle
  {
    if c.vertex != NullModule then c
    else
      var vs := Module(c.nextHandle);
      var fs := Module(c.nextHandle + 1);
      c.(vertex := vs,
         fragment := fs,
         calls := c.calls + [CreateShaderModule(VertexStage, vs), CreateShaderModule(FragmentStage, fs)],
         nextHandle := c.nextHandle + 2)
  }

  /**
   `shutdown`: destroy both modules when a device exists, otherwise nothing. The handles
   are left as they were.
   */
  function Shutdown(c: Cache): (r: Cache)
    ensures r.vertex == c.vertex && r.fragment == c.fragment && r.hasDevice == c.hasDevice
    ensures r.nextHandle == c.nextHandle
    ensures !c.hasDevice ==> r == c
    ensures c.hasDevice ==>
      r.calls == c.calls + [DestroyShaderModule(c.vertex), DestroyShaderModule(c.fragment)]
  {
    if c.hasDevice then
      c.(calls := c.calls + [DestroyShaderModule(c.vertex), DestroyShaderModule(c.fragment)])
    else c
  }

  /** A consistent cache stays consistent and becomes ready. */
  lemma LazyInitPreservesConsistency(c: Cache)
    requires Consistent(c)
    requires c.vertex != NullModule || c.hasDevice
    ensures Consistent(LazyInit(c)) && Ready(LazyInit(c))
  {
    var r := LazyInit(c);
    if c.vertex == NullModule {
      CountsOfPair(CreateShaderModule(VertexStage, r.vertex), CreateShaderModule(FragmentStage, r.fragment));
      CountsDistribute(c.calls, [CreateShaderModule(VertexStage, r.vertex),
                                 CreateShaderModule(FragmentStage, r.fragment)]);
    }
  }

  /** Calling `lazyInit` twice in a row is the same as calling it once. */
  lemma LazyInitIdempotent(c: Cache)
    requires c.vertex != NullModule || c.hasDevice
    ensures LazyInit(LazyInit(c)) == LazyInit(c)
  {
  }

  /** Two consecutive `lazyInit` calls create exactly two modules in all, or none if ready. */
  lemma LazyInitCreatesOnce(c: Cache)
    requires c.vertex != NullModule || c.hasDevice
    ensures CreateCount(LazyInit(LazyInit(c)).calls)
         == CreateCount(c.calls) + (if c.vertex == NullModule then 2 else 0)
    ensures DestroyCount(LazyInit(LazyInit(c)).calls) == DestroyCount(c.calls)
  {
    var r := LazyInit(c);
    if c.vertex == NullModule {
      CountsOfPair(CreateShaderModule(VertexStage, r.vertex), CreateShaderModule(FragmentStage, r.fragment));
      CountsDistribute(c.calls, [CreateShaderModule(VertexStage, r.vertex),
                                 CreateShaderModule(FragmentStage, r.fragment)]);
    }
  }

  /** `shutdown` issues two destroy calls with a device and none without, creating nothing. */
  lemma ShutdownDestroyCount(c: Cache)
    ensures DestroyCount(Shutdown(c).calls) == DestroyCount(c.calls) + (if c.hasDevice then 2 else 0)
    ensures CreateCount(Shutdown(c).calls) == CreateCount(c.calls)
    ensures Consistent(c) ==> Consistent(Shutdown(c))
  {
    if c.hasDevice {
      CountsOfPair(DestroyShaderModule(c.vertex), DestroyShaderModule(c.fragment));
      CountsDistribute(c.calls, [DestroyShaderModule(c.vertex), DestroyShaderModule(c.fragment)]);
    }
  }

  /**
   After initialisation, `shutdown` destroys exactly the two modules that `lazyInit`
   created, each once.
   */
  lemma ShutdownDestroysCreatedModules()
    ensures var c := Shutdown(LazyInit(Fresh(true)));
      && TimesDestroyed(c.calls, c.vertex) == 1
      && TimesDestroyed(c.calls, c.fragment) == 1
      && DestroyCount(c.calls) == 2
      && CreateShaderModule(VertexStage, c.vertex) in c.calls
      && CreateShaderModule(FragmentStage, c.fragment) in c.calls
  {
    var i := LazyInit(Fresh(true));
    var c := Shutdown(i);
    assert i.calls == [CreateShaderModule(VertexStage, i.vertex), CreateShaderModule(FragmentStage, i.fragment)];
    var tail := [DestroyShaderModule(i.vertex), DestroyShaderModule(i.fragment)];
    assert c.calls == i.calls + tail;
    CountsOfPair(i.calls[0], i.calls[1]);
    CountsOfPair(tail[0], tail[1]);
    CountsDistribute(i.calls, tail);
    assert c.calls[0] == CreateShaderModule(VertexStage, c.vertex);
    assert c.calls[1] == CreateShaderModule(FragmentStage, c.fragment);
  }

  /**
   The handles are never reset, so a second `shutdown` hands both modules to
   `vkDestroyShaderModule` again.
   */
  lemma ShutdownTwiceDestroysAgain(c: Cache)
    requires c.hasDevice
    ensures TimesDestroyed(Shutdown(Shutdown(c)).calls, c.vertex)
         == TimesDestroyed(c.calls, c.vertex) + (if c.vertex == c.fragment then 4 else 2)
  {
    var once := [DestroyShaderModule(c.vertex), DestroyShaderModule(c.fragment)];
    CountsDistribute(c.calls, once);
    CountsDistribute(c.calls + once, once);
    CountsOfPair(once[0], once[1]);
  }
}
