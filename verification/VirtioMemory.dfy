/** Sizes of virtio-mem machines: the request built for a size, the size read back from a machine,
    the quota deltas of an edit, and the sanitiser of user requests. */
module VirtioMemory {
  import opened Text

  /** VMMemoryDynamicRequest; a nil pointer is None. */
  datatype Request = Request(
    enabled: Option<bool>,
    backend: string,
    initial: int,
    min: int,
    max: int,
    autoBalloon: Option<bool>,
    current: int)

  /** The part of VmDetail that the size is read from, in MB. */
  datatype Vm = Vm(backend: string, dynamicEnabled: bool, initial: int, maxDynamic: int, maxMemory: int, memory: int)

  function Max(a: int, b: int): int {
    if a < b then b else a
  }

  /** Go's division truncates toward zero. */
  function Div(a: int, b: int): int
    requires b > 0
  {
    if a >= 0 then a / b else -((-a) / b)
  }

  lemma {:induction false} DivTruncates(a: int, b: int)
    requires b > 0
    ensures Div(-a, b) == -Div(a, b) && (a >= 0 ==> Div(a, b) == a / b)
  {
  }

  // ---------------------------------------------------------------- building and reading back

  function BuildFromSpec(specGB: int): Request {
    var s := if specGB <= 0 then 1 else specGB;
    var initial := Max(1, Div(s, 2));
    var max := Max(s, Div(s * 13 + 9, 10));
    Request(Some(true), "virtio_mem", initial, initial, max, Some(false), 0)
  }

  function SpecOf(detail: Option<Vm>): int {
    if detail.None? || detail.value.backend != "virtio_mem" || !detail.value.dynamicEnabled then 0
    else
      var vm := detail.value;
      var initialGB := if vm.initial > 0 then Max(1, Div(vm.initial, 1024)) else 0;
      var maxDynamicGB := if vm.maxDynamic > 0 then Max(1, Div(vm.maxDynamic, 1024)) else 0;
      var specFromInitial := if initialGB > 0 then initialGB * 2 else 0;
      var specFromMax := if maxDynamicGB > 0 then Max(1, Div(maxDynamicGB * 10, 13)) else 0;
      if specFromInitial > 0 || specFromMax > 0 then Max(1, Max(specFromInitial, specFromMax))
      else
        Max(1, if vm.maxMemory > 0 then Max(1, Div(vm.maxMemory, 1024))
               else if vm.memory > 0 then Max(1, Div(vm.memory, 1024))
               else 0)
  }

  /** The machine carries the sizes of the request, in MB. */
  predicate Carries(vm: Vm, r: Request) {
    && r.enabled == Some(true) && vm.dynamicEnabled && vm.backend == r.backend
    && vm.initial == r.initial * 1024 && vm.maxDynamic == r.max * 1024
  }

  /** Reading the size back gives the size the machine was built for, and 2 for sizes of 1 and less. */
  lemma {:induction false} SpecOfBuilt(specGB: int, vm: Vm)
    requires Carries(vm, BuildFromSpec(specGB))
    ensures SpecOf(Some(vm)) == Max(2, specGB)
  {
    if specGB >= 2 {
      Halves(specGB);
      Thirteenths(specGB);
      assert vm.initial / 1024 == specGB / 2 && vm.maxDynamic / 1024 == (specGB * 13 + 9) / 10;
    } else {
      assert BuildFromSpec(specGB).initial == 1 && BuildFromSpec(specGB).max == 2;
      assert vm.initial / 1024 == 1 && vm.maxDynamic / 1024 == 2;
    }
  }

  lemma {:induction false} Halves(s: int)
    requires s >= 2
    ensures 1 <= s / 2 && 2 * (s / 2) <= s <= 2 * (s / 2) + 1
  {
  }

  /** Rounding up by thirteen tenths and down by ten thirteenths comes back. */
  lemma {:induction false} Thirteenths(s: int)
    requires s >= 1
    ensures var max := (s * 13 + 9) / 10; max >= s && 10 * max <= 13 * s + 9 && (max * 10) / 13 == s
  {
    var max := (s * 13 + 9) / 10;
    assert 13 * s <= 10 * max < 13 * s + 10;
  }

  /** The size is a size: positive for every dynamic virtio-mem machine, zero for everything else. */
  lemma {:induction false} SpecIsPositiveIff(detail: Option<Vm>)
    ensures SpecOf(detail) >= 0
    ensures SpecOf(detail) > 0 <==> detail.Some? && detail.value.backend == "virtio_mem" && detail.value.dynamicEnabled
  {
    if detail.Some? {
      assert forall x, y :: Max(x, y) >= x && Max(x, y) >= y;
    }
  }

  predicate IsVirtio(vm: Vm) {
    vm.backend == "virtio_mem" && vm.dynamicEnabled
  }

  /** What a size in MB counts for in GB: full ones, and at least 1. */
  predicate CountsFor(gb: int, mb: int) {
    gb >= 1 && 1024 * gb <= Max(mb, 1024) < 1024 * gb + 1024
  }

  /** The size of any dynamic virtio-mem machine: the larger of twice its initial size and ten thirteenths
      of its maximum, as far as it has them; one that has neither is as large as its memory. */
  lemma {:induction false} SpecOfSizes(vm: Vm, i: int, m: int)
    requires IsVirtio(vm) && CountsFor(i, vm.initial) && CountsFor(m, vm.maxDynamic)
    ensures var spec := SpecOf(Some(vm));
            && (vm.initial > 0 ==> spec >= 2 * i)
            && (vm.maxDynamic > 0 ==> 13 * spec + 13 > 10 * m)
            && (vm.initial > 0 || vm.maxDynamic > 0 ==>
                  || (vm.initial > 0 && spec == 2 * i)
                  || (vm.maxDynamic > 0 && (spec == 1 || 13 * spec <= 10 * m)))
            && (vm.initial <= 0 && vm.maxDynamic <= 0 ==>
                  CountsFor(spec, if vm.maxMemory > 0 then vm.maxMemory else vm.memory))
  {
    if vm.initial > 0 { CountsForOne(i, vm.initial); }
    if vm.maxDynamic > 0 { CountsForOne(m, vm.maxDynamic); }
  }

  lemma {:induction false} CountsForOne(gb: int, mb: int)
    requires CountsFor(gb, mb) && mb > 0
    ensures gb == Max(1, Div(mb, 1024))
  {
  }

  // ---------------------------------------------------------------- the sanitiser

  function Sanitize(req: Option<Request>, baseGB: int): Option<Request> {
    if req.None? || req.value.enabled.None? then None
    else
      var base := if baseGB <= 0 then 1 else baseGB;
      var enabled := req.value.enabled.value;
      var backend := if req.value.backend != "virtio_mem" then "balloon" else req.value.backend;
      if !enabled then Some(Request(Some(enabled), backend, base, 0, 0, None, 0))
      else
        var memoryMin := Max(1, Div(base, 2));
        var memoryMax := Max(base, Div(base * 13 + 9, 10));
        var virtio := backend == "virtio_mem";
        var memoryInitial := if virtio then memoryMin else base;
        Some(Request(Some(enabled), backend, memoryInitial, memoryMin, memoryMax, Some(!virtio),
                     Clamp(req.value.current, memoryInitial, memoryMax)))
  }

  /** Zero and less means no wish; a wish is moved into [low, high]. */
  function Clamp(current: int, low: int, high: int): int {
    if current <= 0 then 0
    else
      var raised := if current < low then low else current;
      if raised > high then high else raised
  }

  /** Whatever a user sends, what gets through lies in the bounds of the base size. */
  lemma {:induction false} SanitizedIsBounded(req: Option<Request>, baseGB: int)
    ensures Sanitize(req, baseGB).None? <==> req.None? || req.value.enabled.None?
    ensures var base, s := Max(1, baseGB), Sanitize(req, baseGB);
            s.Some? ==>
              var r := s.value;
              && r.enabled == req.value.enabled
              && (r.backend == "virtio_mem" || r.backend == "balloon")
              && (r.backend == "virtio_mem" <==> req.value.backend == "virtio_mem")
              && (r.enabled == Some(true) ==>
                    && 1 <= r.min <= r.initial <= base <= r.max
                    && 2 * r.min <= Max(2, base) < 2 * r.min + 2 && 13 * base <= 10 * r.max <= 13 * base + 9
                    && r.initial == (if r.backend == "virtio_mem" then r.min else base)
                    && r.autoBalloon == Some(r.backend == "balloon")
                    && WishIsMet(req.value.current, r))
              && (r.enabled == Some(false) ==>
                    r.initial == base && r.min == r.max == r.current == 0 && r.autoBalloon == None)
  {
    Thirteenths(Max(1, baseGB));
  }

  /** A wish for a current size is met within the bounds, and moved to the nearer one outside. */
  predicate WishIsMet(wish: int, r: Request) {
    && (wish <= 0 ==> r.current == 0)
    && (0 < wish < r.initial ==> r.current == r.initial)
    && (r.initial <= wish <= r.max && wish > 0 ==> r.current == wish)
    && (wish > r.max && wish > 0 ==> r.current == r.max)
  }

  lemma {:induction false} SanitizeTwice(req: Option<Request>, baseGB: int)
    ensures Sanitize(Sanitize(req, baseGB), baseGB) == Sanitize(req, baseGB)
  {
    SanitizedIsBounded(req, baseGB);
  }

  /** The two independently written builders agree on virtio-mem, but for the current size. */
  lemma {:induction false} BuildersAgree(req: Option<Request>, baseGB: int)
    requires Sanitize(req, baseGB).Some? && Sanitize(req, baseGB).value.enabled == Some(true)
    ensures Sanitize(req, baseGB).value.(current := 0) == BuildFromSpec(baseGB) <==> req.value.backend == "virtio_mem"
  {
  }

  /** A user's edit may send its own request: the size read back is still the base size. */
  lemma {:induction false} SpecOfSanitized(req: Option<Request>, baseGB: int, vm: Vm)
    requires Sanitize(req, baseGB).Some? && req.value.backend == "virtio_mem"
    requires Carries(vm, Sanitize(req, baseGB).value)
    ensures SpecOf(Some(vm)) == Max(2, baseGB)
  {
    BuildersAgree(req, baseGB);
    SpecOfBuilt(baseGB, vm);
  }

  // ---------------------------------------------------------------- a run of edits

  /** One edit by a user: the memory field, the dynamic-memory request, and what virsh reports in MB. */
  datatype Edit = Edit(memory: int, dynamic: Option<Request>, oldMemMB: int)

  /** The growth that is put to the quota. */
  function DeltaOf(e: Edit, vm: Vm): int {
    if e.memory <= 0 then 0
    else if SpecOf(Some(vm)) > 0 then e.memory - SpecOf(Some(vm))
    else e.memory - Div(e.oldMemMB, 1024)
  }

  /** The dynamic-memory request that EditVm ends up with for a user. */
  function EffectiveRequest(e: Edit, vm: Vm): Option<Request> {
    var spec := SpecOf(Some(vm));
    var dynamic := if IsVirtio(vm) && e.dynamic.None? && e.memory > 0 && spec > 0 && e.memory != spec
                   then Some(BuildFromSpec(e.memory)) else e.dynamic;
    var base := if e.memory > 0 then e.memory else if spec > 0 then spec else Max(1, Div(e.oldMemMB, 1024));
    Sanitize(dynamic, base)
  }

  /** A dynamic request decides alone; without one the memory field resizes a machine that is not
      virtio-mem. */
  function Edited(vm: Vm, e: Edit): Vm {
    var r := EffectiveRequest(e, vm);
    if r.Some? then Applied(vm, r.value)
    else if e.memory > 0 && !IsVirtio(vm) then Resized(vm, e.memory * 1024)
    else vm
  }

  /** The memory part of EditVMConfig: maximum and current memory in the stored configuration. */
  function Resized(vm: Vm, memoryMB: int): Vm {
    vm.(maxMemory := memoryMB, memory := memoryMB)
  }

  /** The machine takes over the sizes of a request. */
  function Applied(vm: Vm, r: Request): Vm {
    vm.(backend := r.backend, dynamicEnabled := r.enabled == Some(true),
        initial := r.initial * 1024, maxDynamic := r.max * 1024)
  }

  /** The edit stays with virtio-mem. */
  predicate StaysVirtio(e: Edit) {
    e.dynamic.Some? ==> e.dynamic.value.backend == "virtio_mem" && e.dynamic.value.enabled == Some(true)
  }

  /** A request that does not say whether it switches dynamic memory on or off. */
  predicate EmptyRequest(e: Edit) {
    e.dynamic.Some? && e.dynamic.value.enabled.None?
  }

  /** The size that the edit asks for. */
  function Wanted(e: Edit, spec: int): int {
    if e.memory > 0 then e.memory else spec
  }

  /** An edit reaches the size it asks for, and its delta is the growth, exactly if that size is at
      least 2 or nothing is to be rebuilt. An empty request keeps the machine from being rebuilt at all:
      then the two agree only if nothing was asked for. */
  lemma {:induction false} DeltaIsGrowthIff(vm: Vm, e: Edit)
    requires IsVirtio(vm) && (StaysVirtio(e) || EmptyRequest(e))
    ensures var spec, spec' := SpecOf(Some(vm)), SpecOf(Some(Edited(vm, e)));
            && IsVirtio(Edited(vm, e))
            && (EmptyRequest(e) ==> Edited(vm, e) == vm)
            && (spec' == Wanted(e, spec) <==> DeltaOf(e, vm) == spec' - spec)
            && (DeltaOf(e, vm) == spec' - spec <==>
                  || (Wanted(e, spec) >= 2 && !EmptyRequest(e))
                  || (Wanted(e, spec) == spec && (e.dynamic.None? || EmptyRequest(e))))
  {
    var spec := SpecOf(Some(vm));
    SpecIsPositiveIff(Some(vm));
    if EmptyRequest(e) {
    } else if e.dynamic.Some? {
      SpecOfSanitized(e.dynamic, Wanted(e, spec), Edited(vm, e));
    } else if e.memory > 0 && e.memory != spec {
      SpecOfSanitized(Some(BuildFromSpec(e.memory)), e.memory, Edited(vm, e));
    }
  }

  /** What the size of a request is measured against: the memory asked for, else the size of a virtio-mem
      machine, else the full GB that virsh reports. */
  ghost predicate BaseOf(base: int, vm: Vm, e: Edit) {
    if e.memory > 0 then base == e.memory
    else if IsVirtio(vm) then base == SpecOf(Some(vm))
    else CountsFor(base, e.oldMemMB)
  }

  /** A user's request on any machine: it takes the backend and the switch of the request and the sizes of
      the base, and leaves the stored memory alone. */
  lemma {:induction false} RequestIsApplied(vm: Vm, e: Edit, base: int)
    requires e.dynamic.Some? && e.dynamic.value.enabled.Some? && BaseOf(base, vm, e)
    ensures var r, now := e.dynamic.value, Edited(vm, e);
            && now.dynamicEnabled == r.enabled.value
            && (now.backend == "virtio_mem" || now.backend == "balloon")
            && (now.backend == "virtio_mem" <==> r.backend == "virtio_mem")
            && now.maxMemory == vm.maxMemory && now.memory == vm.memory
            && (if !now.dynamicEnabled then now.initial == 1024 * base && now.maxDynamic == 0
                else
                  && 13 * 1024 * base <= 10 * now.maxDynamic <= 1024 * (13 * base + 9)
                  && (now.backend == "balloon" ==> now.initial == 1024 * base)
                  && (now.backend == "virtio_mem" ==>
                        now.initial <= 512 * Max(2, base) < now.initial + 1024))
  {
    SpecIsPositiveIff(Some(vm));
    BaseIsUsed(vm, e, base);
    SanitizedIsBounded(e.dynamic, base);
  }

  lemma {:induction false} BaseIsUsed(vm: Vm, e: Edit, base: int)
    requires e.dynamic.Some? && BaseOf(base, vm, e)
    ensures EffectiveRequest(e, vm) == Sanitize(e.dynamic, base) && base >= 1
  {
    SpecIsPositiveIff(Some(vm));
  }

  /** On any other machine the delta of a plain edit is its growth, by the maximum that virsh reports. */
  lemma {:induction false} PlainDeltaIsGrowth(vm: Vm, e: Edit)
    requires !IsVirtio(vm) && e.dynamic.None? && e.oldMemMB == vm.maxMemory
    ensures DeltaOf(e, vm) == Div(Edited(vm, e).maxMemory, 1024) - Div(vm.maxMemory, 1024)
    ensures Edited(vm, e).(maxMemory := vm.maxMemory, memory := vm.memory) == vm
    ensures if e.memory <= 0 then Edited(vm, e) == vm
            else Edited(vm, e).memory == Edited(vm, e).maxMemory == 1024 * e.memory
  {
    SpecIsPositiveIff(Some(vm));
  }

  /** A request built by the program passes its own sanitiser unchanged. */
  lemma {:induction false} BuiltRequestPasses(specGB: int)
    ensures Sanitize(Some(BuildFromSpec(specGB)), specGB) == Some(BuildFromSpec(specGB))
  {
    BuildersAgree(Some(BuildFromSpec(specGB)), specGB);
  }

  /** Asking a machine for the size it has is free, and only that is; it changes nothing, as does
      asking a machine built for 1 for 1 again, which counts as shrinking. */
  lemma {:induction false} UnchangedEditIsFree(specGB: int, vm: Vm, e: Edit)
    requires Carries(vm, BuildFromSpec(specGB)) && e.memory > 0 && e.dynamic.None?
    ensures DeltaOf(e, vm) == 0 <==> e.memory == Max(2, specGB)
    ensures Edited(vm, e) == vm <==> e.memory == Max(2, specGB) || e.memory == Max(1, specGB)
  {
    SpecOfBuilt(specGB, vm);
    if e.memory != Max(2, specGB) {
      BuiltRequestPasses(e.memory);
      if Edited(vm, e) == vm {
        SameSizes(specGB, e.memory);
      }
    }
  }

  /** Different sizes of at least 1 make different requests. */
  lemma {:induction false} SameSizes(a: int, b: int)
    requires BuildFromSpec(a).initial == BuildFromSpec(b).initial && BuildFromSpec(a).max == BuildFromSpec(b).max
    ensures Max(1, a) == Max(1, b)
  {
    Thirteenths(Max(1, a));
    Thirteenths(Max(1, b));
  }

  /** The sizes asked for by a run of edits, in the end. */
  function Final(spec: int, edits: seq<Edit>): int {
    if edits == [] then spec else Wanted(edits[|edits| - 1], Final(spec, edits[..|edits| - 1]))
  }

  /** The memory part of a user's EditVm. */
  class VirtioMachine {
    var vm: Vm
    /** The sum of all deltas put to the quota so far. */
    var charged: int

    constructor (vm: Vm)
      ensures this.vm == vm && charged == 0
    {
      this.vm, charged := vm, 0;
    }

    method EditMemory(e: Edit) returns (delta: int)
      modifies this
      ensures delta == DeltaOf(e, old(vm)) && charged == old(charged) + delta
      ensures vm == Edited(old(vm), e)
    {
      var spec := SpecOf(Some(vm));
      delta := 0;
      if e.memory > 0 {
        var oldMemoryGB := Div(e.oldMemMB, 1024);
        if spec > 0 {
          oldMemoryGB := spec;
        }
        delta := e.memory - oldMemoryGB;
      }
      charged := charged + delta;
      var dynamic := e.dynamic;
      if IsVirtio(vm) && dynamic.None? && e.memory > 0 && spec > 0 && e.memory != spec {
        dynamic := Some(BuildFromSpec(e.memory));
      }
      if dynamic.Some? {
        var baseMemoryGB := e.memory;
        if baseMemoryGB <= 0 {
          baseMemoryGB := spec;
        }
        if baseMemoryGB <= 0 {
          baseMemoryGB := Max(1, Div(e.oldMemMB, 1024));
        }
        dynamic := Sanitize(dynamic, baseMemoryGB);
      }
      var legacyMemoryMB := e.memory * 1024;
      if dynamic.Some? || IsVirtio(vm) {
        legacyMemoryMB := 0;
      }
      if legacyMemoryMB > 0 {
        vm := Resized(vm, legacyMemoryMB);
      }
      if dynamic.Some? {
        vm := Applied(vm, dynamic.value);
      }
    }

    /** Over any run of edits the deltas add up to the final size less the first one. */
    method EditAll(edits: seq<Edit>)
      requires IsVirtio(vm) && SpecOf(Some(vm)) >= 2
      requires forall i | 0 <= i < |edits| :: StaysVirtio(edits[i]) && edits[i].memory != 1
      modifies this
      ensures IsVirtio(vm) && charged - old(charged) == SpecOf(Some(vm)) - SpecOf(Some(old(vm)))
      ensures SpecOf(Some(vm)) == Final(SpecOf(Some(old(vm))), edits) >= 2
    {
      ghost var first := SpecOf(Some(vm));
      for i := 0 to |edits|
        invariant IsVirtio(vm) && charged - old(charged) == SpecOf(Some(vm)) - first
        invariant SpecOf(Some(vm)) == Final(first, edits[..i]) >= 2
      {
        DeltaIsGrowthIff(vm, edits[i]);
        assert edits[..i + 1][..i] == edits[..i];
        var _ := EditMemory(edits[i]);
      }
      assert edits[..|edits|] == edits;
    }
  }
}
