/**
 The CPU and memory distributor: the resources given to Astarte as a whole are split over its
 components by a weight table, the weights of disabled components are shared out evenly among
 the others, and the resulting quantities are clamped to workable minima.
 */
module Allocation {
  import opened Specs

  type Weights = Component -> real

  /** CPU is counted in thousandths of a core, memory in bytes. */
  datatype Quantities = Quantities(cpu: int, memory: int)
  datatype Requirements = Unset | Requirements(limits: Quantities, requests: Quantities)
  datatype Table = Table(cpu: Weights, memory: Weights)

  const MEGA := 1_000_000
  const MIN_CPU_REQUEST := 150
  const MIN_CPU_LIMIT := 300
  const MIN_MEMORY_MEGABYTES := 128
  const MIN_MEMORY_REQUEST := MIN_MEMORY_MEGABYTES * MEGA

  const COMPONENTS: seq<Component> :=
    [AppEngineAPI, Dashboard, DataUpdaterPlant, FlowComponent, Housekeeping, Pairing, RealmManagement, TriggerEngine]

  function DefaultWeight(component: Component): real {
    match component
    case AppEngineAPI => 0.18
    case DataUpdaterPlant => 0.21
    case FlowComponent => 0.10
    case Housekeeping => 0.08
    case Pairing => 0.19
    case RealmManagement => 0.12
    case TriggerEngine => 0.07
    case Dashboard => 0.05
  }

  // --- Weights ---

  /** The allocator counts a component as deployed unless its flag says no, Flow included. */
  predicate Counted(flags: DeployFlags, component: Component) {
    Flag(flags, component, true)
  }

  function Count(flags: DeployFlags, components: seq<Component>): nat {
    if components == [] then 0
    else (if Counted(flags, components[0]) then 1 else 0) + Count(flags, components[1..])
  }

  /** The weight that the disabled components leave on the table. */
  function Leftover(weights: Weights, flags: DeployFlags, components: seq<Component>): real {
    if components == [] then 0.0
    else (if Counted(flags, components[0]) then 0.0 else weights(components[0])) + Leftover(weights, flags, components[1..])
  }

  function Total(weights: Weights, components: seq<Component>): real {
    if components == [] then 0.0 else weights(components[0]) + Total(weights, components[1..])
  }

  method GetNumberOfDeployedAstarteComponents(flags: DeployFlags) returns (deployedComponents: nat)
    ensures deployedComponents == Count(flags, COMPONENTS)
  {
    deployedComponents := 0;
    for i := 0 to |COMPONENTS|
      invariant deployedComponents + Count(flags, COMPONENTS[i..]) == Count(flags, COMPONENTS)
    {
      if Counted(flags, COMPONENTS[i]) {
        deployedComponents := deployedComponents + 1;
      }
    }
  }

  method GetLeftoverCoefficient(weights: Weights, flags: DeployFlags) returns (coefficient: real)
    ensures coefficient == Leftover(weights, flags, COMPONENTS)
  {
    coefficient := 0.0;
    for i := 0 to |COMPONENTS|
      invariant coefficient + Leftover(weights, flags, COMPONENTS[i..]) == Leftover(weights, flags, COMPONENTS)
    {
      if !Counted(flags, COMPONENTS[i]) {
        coefficient := coefficient + weights(COMPONENTS[i]);
      }
    }
  }

  lemma CountedMeansCounted(flags: DeployFlags, components: seq<Component>, component: Component)
    requires component in components && Counted(flags, component)
    ensures Count(flags, components) >= 1
  {
    if components[0] != component {
      CountedMeansCounted(flags, components[1..], component);
    }
  }

  lemma ComponentsAreComplete(component: Component)
    ensures component in COMPONENTS
  {
    var i := match component
      case AppEngineAPI => 0
      case Dashboard => 1
      case DataUpdaterPlant => 2
      case FlowComponent => 3
      case Housekeeping => 4
      case Pairing => 5
      case RealmManagement => 6
      case TriggerEngine => 7;
    assert COMPONENTS[i] == component;
  }

  /** The extra weight that each deployed component gets from the disabled ones. */
  function Bonus(weights: Weights, flags: DeployFlags): real
    requires Count(flags, COMPONENTS) >= 1
  {
    var leftover := Leftover(weights, flags, COMPONENTS);
    if leftover > 0.0 then leftover / Count(flags, COMPONENTS) as real else 0.0
  }

  /** A component's weight after the redistribution, the component being deployed. */
  function Weight(weights: Weights, flags: DeployFlags, component: Component): real
    requires Counted(flags, component)
  {
    ComponentsAreComplete(component);
    CountedMeansCounted(flags, COMPONENTS, component);
    weights(component) + Bonus(weights, flags)
  }

  ghost predicate Normalized(weights: Weights) {
    && Total(weights, COMPONENTS) == 1.0
    && forall c :: weights(c) > 0.0
  }

  lemma DefaultWeightsAreNormalized()
    ensures Normalized(DefaultWeight)
  {
    var w := DefaultWeight;
    assert Total(w, COMPONENTS[7..]) == 0.07;
    assert Total(w, COMPONENTS[6..]) == 0.19 by { assert COMPONENTS[6..][1..] == COMPONENTS[7..]; }
    assert Total(w, COMPONENTS[5..]) == 0.38 by { assert COMPONENTS[5..][1..] == COMPONENTS[6..]; }
    assert Total(w, COMPONENTS[4..]) == 0.46 by { assert COMPONENTS[4..][1..] == COMPONENTS[5..]; }
    assert Total(w, COMPONENTS[3..]) == 0.56 by { assert COMPONENTS[3..][1..] == COMPONENTS[4..]; }
    assert Total(w, COMPONENTS[2..]) == 0.77 by { assert COMPONENTS[2..][1..] == COMPONENTS[3..]; }
    assert Total(w, COMPONENTS[1..]) == 0.82 by { assert COMPONENTS[1..][1..] == COMPONENTS[2..]; }
  }

  /** The sum of the redistributed weights over the components of a list that satisfy a filter. */
  function WeightSum(weights: Weights, flags: DeployFlags, chosen: set<Component>, components: seq<Component>): real
    requires forall c <- chosen :: Counted(flags, c)
  {
    if components == [] then 0.0
    else (if components[0] in chosen then Weight(weights, flags, components[0]) else 0.0) +
         WeightSum(weights, flags, chosen, components[1..])
  }

  ghost function AllCounted(flags: DeployFlags): set<Component> {
    set c: Component | Counted(flags, c)
  }

  lemma {:induction false} WeightSumSplits(weights: Weights, flags: DeployFlags, components: seq<Component>)
    requires Count(flags, COMPONENTS) >= 1
    ensures WeightSum(weights, flags, AllCounted(flags), components) ==
            Total(weights, components) - Leftover(weights, flags, components) +
            Bonus(weights, flags) * Count(flags, components) as real
  {
    if components != [] {
      WeightSumSplits(weights, flags, components[1..]);
      var rest := Count(flags, components[1..]) as real;
      assert Bonus(weights, flags) * (1.0 + rest) == Bonus(weights, flags) + Bonus(weights, flags) * rest;
    }
  }

  lemma LeftoverIsNotNegative(weights: Weights, flags: DeployFlags, components: seq<Component>)
    requires forall c :: weights(c) > 0.0
    ensures Leftover(weights, flags, components) >= 0.0
  {
  }

  /** Nothing is lost and nothing is invented: the weights of the deployed components sum to one. */
  lemma WeightsAreConserved(weights: Weights, flags: DeployFlags)
    requires Normalized(weights) && Count(flags, COMPONENTS) >= 1
    ensures WeightSum(weights, flags, AllCounted(flags), COMPONENTS) == 1.0
  {
    WeightSumSplits(weights, flags, COMPONENTS);
    LeftoverIsNotNegative(weights, flags, COMPONENTS);
    BonusesAddUp(weights, flags, Leftover(weights, flags, COMPONENTS), Count(flags, COMPONENTS) as real);
  }

  lemma BonusesAddUp(weights: Weights, flags: DeployFlags, leftover: real, n: real)
    requires Count(flags, COMPONENTS) >= 1 && n == Count(flags, COMPONENTS) as real
    requires leftover == Leftover(weights, flags, COMPONENTS) >= 0.0
    ensures Bonus(weights, flags) * n == leftover
  {
    Cancel(leftover, n);
  }

  lemma Cancel(a: real, n: real)
    requires n > 0.0
    ensures a / n * n == a
  {
  }

  lemma WeightIsPositive(weights: Weights, flags: DeployFlags, component: Component)
    requires Normalized(weights) && Counted(flags, component)
    ensures Weight(weights, flags, component) > 0.0
  {
    LeftoverIsNotNegative(weights, flags, COMPONENTS);
    ComponentsAreComplete(component);
    CountedMeansCounted(flags, COMPONENTS, component);
    PositiveQuotient(Leftover(weights, flags, COMPONENTS), Count(flags, COMPONENTS) as real);
  }

  lemma PositiveQuotient(a: real, n: real)
    requires a >= 0.0 && n > 0.0
    ensures a / n >= 0.0
  {
    Cancel(a, n);
    NonNegativeFactor(a / n, n);
  }

  lemma NonNegativeFactor(x: real, n: real)
    requires x * n >= 0.0 && n > 0.0
    ensures x >= 0.0
  {
  }

  lemma ScaleReal(a: real, b: real, c: real)
    requires 0.0 <= c
    ensures a <= b ==> a * c <= b * c && c * a <= c * b
    ensures a < b && 0.0 < c ==> a * c < b * c
  {
  }

  lemma {:induction false} SmallerChoiceWeighsLess(weights: Weights, flags: DeployFlags, small: set<Component>, large: set<Component>, components: seq<Component>)
    requires Normalized(weights) && small <= large && forall c <- large :: Counted(flags, c)
    ensures WeightSum(weights, flags, small, components) <= WeightSum(weights, flags, large, components)
  {
    if components != [] {
      SmallerChoiceWeighsLess(weights, flags, small, large, components[1..]);
      if components[0] in large {
        WeightIsPositive(weights, flags, components[0]);
      }
    }
  }

  /** The components that the operator really deploys. */
  ghost function AllDeployed(flags: DeployFlags): set<Component> {
    set c: Component | IsDeployed(flags, c)
  }

  /** The allocator takes an unset Flow flag as on while the operator does not deploy Flow then, so
      over the components really deployed the weights sum to one exactly when the flag is set. */
  lemma DeployedWeights(weights: Weights, flags: DeployFlags)
    requires Normalized(weights) && Count(flags, COMPONENTS) >= 1
    ensures AllDeployed(flags) <= AllCounted(flags)
    ensures WeightSum(weights, flags, AllDeployed(flags), COMPONENTS) <= 1.0
    ensures WeightSum(weights, flags, AllDeployed(flags), COMPONENTS) == 1.0 <==> FlowComponent in flags
  {
    WeightsAreConserved(weights, flags);
    var deployed, counted := AllDeployed(flags), AllCounted(flags);
    SmallerChoiceWeighsLess(weights, flags, deployed, counted, COMPONENTS);
    if FlowComponent in flags {
      assert deployed == counted;
    } else {
      assert FlowComponent in counted && counted - {FlowComponent} == deployed;
      ComponentsAreComplete(FlowComponent);
      WeightIsPositive(weights, flags, FlowComponent);
      DroppingOneLosesItsWeight(weights, flags, deployed, counted, FlowComponent, COMPONENTS);
    }
  }

  lemma {:induction false} DroppingOneLosesItsWeight(weights: Weights, flags: DeployFlags, small: set<Component>, large: set<Component>, dropped: Component, components: seq<Component>)
    requires Normalized(weights) && (forall c <- large :: Counted(flags, c))
    requires dropped in large && small == large - {dropped} && dropped in components
    ensures WeightSum(weights, flags, small, components) < WeightSum(weights, flags, large, components)
  {
    WeightIsPositive(weights, flags, dropped);
    if components[0] == dropped {
      SmallerChoiceWeighsLess(weights, flags, small, large, components[1..]);
    } else {
      DroppingOneLosesItsWeight(weights, flags, small, large, dropped, components[1..]);
    }
  }

  // --- Scaled quantities ---

  /** Conversion from a real to an integer in Go: it truncates toward zero. */
  function Truncate(x: real): int {
    if x >= 0.0 then x.Floor else -((-x).Floor)
  }

  function Scaled(quantity: int, coefficient: real): int {
    Truncate(quantity as real * coefficient)
  }

  /** `Quantity.ScaledValue(Mega)`: the number of megabytes, rounded up. */
  function Megabytes(bytes: int): int {
    -((-bytes) / MEGA)
  }

  function Max(a: int, b: int): int {
    if a >= b then a else b
  }

  function SumInt(values: map<Component, int>, components: seq<Component>): int {
    if components == [] then 0
    else (if components[0] in values then values[components[0]] else 0) + SumInt(values, components[1..])
  }

  ghost function SumReal(values: map<Component, real>, components: seq<Component>): real {
    if components == [] then 0.0
    else (if components[0] in values then values[components[0]] else 0.0) + SumReal(values, components[1..])
  }

  /** The truncated shares of a budget over a choice of components. */
  function Shares(budget: int, weights: Weights, flags: DeployFlags, chosen: set<Component>): map<Component, int>
    requires forall c <- chosen :: Counted(flags, c)
  {
    map c | c in chosen :: Scaled(budget, Weight(weights, flags, c))
  }

  function ShareSum(budget: int, weights: Weights, flags: DeployFlags, chosen: set<Component>): int
    requires forall c <- chosen :: Counted(flags, c)
  {
    SumInt(Shares(budget, weights, flags, chosen), COMPONENTS)
  }

  function Size(chosen: set<Component>, components: seq<Component>): nat {
    if components == [] then 0 else (if components[0] in chosen then 1 else 0) + Size(chosen, components[1..])
  }

  lemma ScaledBounds(budget: int, coefficient: real)
    requires budget >= 0 && coefficient >= 0.0
    ensures 0 <= Scaled(budget, coefficient)
    ensures budget as real * coefficient - 1.0 < Scaled(budget, coefficient) as real <= budget as real * coefficient
  {
    assert budget as real * coefficient >= 0.0;
  }

  /** The shares before truncation. */
  ghost function ExactShares(budget: int, weights: Weights, flags: DeployFlags, chosen: set<Component>): map<Component, real>
    requires forall c <- chosen :: Counted(flags, c)
  {
    map c | c in chosen :: budget as real * Weight(weights, flags, c)
  }

  lemma {:induction false} ExactSharesFactor(budget: int, weights: Weights, flags: DeployFlags, chosen: set<Component>, components: seq<Component>)
    requires forall c <- chosen :: Counted(flags, c)
    ensures SumReal(ExactShares(budget, weights, flags, chosen), components) ==
            budget as real * WeightSum(weights, flags, chosen, components)
  {
    hide Weight;
    if components != [] {
      ExactSharesFactor(budget, weights, flags, chosen, components[1..]);
      if components[0] in chosen {
        DistributeReal(budget as real, Weight(weights, flags, components[0]), WeightSum(weights, flags, chosen, components[1..]));
      }
    }
  }

  lemma {:induction false} TruncatedSumBounds(shares: map<Component, int>, exact: map<Component, real>, components: seq<Component>)
    requires shares.Keys == exact.Keys
    requires forall c <- shares :: exact[c] - 1.0 < shares[c] as real <= exact[c]
    ensures var size := Size(shares.Keys, components);
            && SumReal(exact, components) - size as real <= SumInt(shares, components) as real <= SumReal(exact, components)
            && (size >= 1 ==> SumReal(exact, components) - size as real < SumInt(shares, components) as real)
  {
    if components != [] {
      TruncatedSumBounds(shares, exact, components[1..]);
    }
  }

  lemma ShareBounds(budget: int, weights: Weights, flags: DeployFlags, chosen: set<Component>)
    requires budget >= 0 && Normalized(weights) && forall c <- chosen :: Counted(flags, c)
    ensures var shares, exact := Shares(budget, weights, flags, chosen), ExactShares(budget, weights, flags, chosen);
            forall c <- shares :: exact[c] - 1.0 < shares[c] as real <= exact[c]
  {
    hide Scaled, Weight, Normalized;
    forall c | c in chosen
      ensures var exact := budget as real * Weight(weights, flags, c);
              exact - 1.0 < Scaled(budget, Weight(weights, flags, c)) as real <= exact
    {
      WeightIsPositive(weights, flags, c);
      ScaledBounds(budget, Weight(weights, flags, c));
    }
  }

  lemma ShareSumBounds(budget: int, weights: Weights, flags: DeployFlags, chosen: set<Component>, components: seq<Component>)
    requires budget >= 0 && Normalized(weights) && forall c <- chosen :: Counted(flags, c)
    ensures var exact := budget as real * WeightSum(weights, flags, chosen, components);
            var shares, size := SumInt(Shares(budget, weights, flags, chosen), components), Size(chosen, components);
            && exact - size as real <= shares as real <= exact
            && (size >= 1 ==> exact - size as real < shares as real)
  {
    ShareBounds(budget, weights, flags, chosen);
    var shares, exact := Shares(budget, weights, flags, chosen), ExactShares(budget, weights, flags, chosen);
    assert shares.Keys == chosen;
    TruncatedSumBounds(shares, exact, components);
    ExactSharesFactor(budget, weights, flags, chosen, components);
  }

  lemma DistributeReal(a: real, b: real, c: real)
    ensures a * (b + c) == a * b + a * c
  {
  }

  /** Truncation loses less than one unit per component: with n components deployed, their shares
      of a budget sum to more than the budget minus n, and never to more than the budget. */
  lemma SharesAlmostExhaustTheBudget(budget: int, weights: Weights, flags: DeployFlags)
    requires budget >= 0 && Normalized(weights) && FlowComponent in flags
    requires Count(flags, COMPONENTS) >= 1
    ensures var deployed := AllDeployed(flags);
            budget - Size(deployed, COMPONENTS) < ShareSum(budget, weights, flags, deployed) <= budget
  {
    var deployed := AllDeployed(flags);
    assert deployed == AllCounted(flags);
    WeightsAreConserved(weights, flags);
    ShareSumBounds(budget, weights, flags, deployed, COMPONENTS);
    SizeIsCount(flags, COMPONENTS);
    assert budget as real * 1.0 == budget as real;
  }

  lemma {:induction false} SizeIsCount(flags: DeployFlags, components: seq<Component>)
    ensures Size(AllCounted(flags), components) == Count(flags, components)
  {
    if components != [] {
      SizeIsCount(flags, components[1..]);
    }
  }

  // --- Requirements of one component ---

  function CpuRequest(share: int): int {
    if share < MIN_CPU_REQUEST then 0 else share
  }

  function MemoryRequest(share: int): int {
    if Megabytes(share) < MIN_MEMORY_MEGABYTES then MIN_MEMORY_REQUEST else share
  }

  /** What a deployed component is given; `budget` is the total for all components, if there is one. */
  function ResourcesFor(table: Table, flags: DeployFlags, budget: Option<Requirements>, requested: Option<Requirements>, component: Component): Requirements
    requires Counted(flags, component)
  {
    match (requested, budget)
    case (Some(explicit), _) => explicit
    case (None, None) => Unset
    case (None, Some(Unset)) => Distributed(table, flags, Quantities(0, 0), Quantities(0, 0), component)
    case (None, Some(Requirements(limits, requests))) => Distributed(table, flags, limits, requests, component)
  }

  function Distributed(table: Table, flags: DeployFlags, limits: Quantities, requests: Quantities, component: Component): Requirements
    requires Counted(flags, component)
  {
    var cpu, memory := Weight(table.cpu, flags, component), Weight(table.memory, flags, component);
    if memory == 0.0 || cpu == 0.0 then
      Unset
    else
      Clamped(
        Quantities(Scaled(limits.cpu, cpu), Scaled(limits.memory, memory)),
        Quantities(Scaled(requests.cpu, cpu), Scaled(requests.memory, memory)))
  }

  function Clamped(limits: Quantities, requests: Quantities): Requirements {
    var cpu, memory := CpuRequest(requests.cpu), MemoryRequest(requests.memory);
    Requirements(Quantities(Max(MIN_CPU_LIMIT, Max(limits.cpu, cpu)), Max(limits.memory, memory)), Quantities(cpu, memory))
  }

  method GetResourcesForAstarteComponent(table: Table, flags: DeployFlags, budget: Option<Requirements>,
                                         requestedResources: Option<Requirements>, component: Component)
    returns (resources: Requirements)
    requires Counted(flags, component)
    ensures resources == ResourcesFor(table, flags, budget, requestedResources, component)
    ensures requestedResources.Some? ==> resources == requestedResources.value
    ensures requestedResources.None? && budget.Some? && budget.value.Requirements? && Sensible(table, budget.value) ==>
              Granted(resources, table, flags, budget.value, component)
  {
    if requestedResources.None? && budget.Some? && budget.value.Requirements? && Sensible(table, budget.value) {
      GrantedExactly(table, flags, budget.value, component);
    }
    if requestedResources.Some? {
      return requestedResources.value;
    }
    if budget.None? {
      return Unset;
    }
    var limits, requests := Quantities(0, 0), Quantities(0, 0);
    if budget.value.Requirements? {
      limits, requests := budget.value.limits, budget.value.requests;
    }
    var cpuCoefficient := GetWeightedDefaultAllocationFor(table.cpu, flags, component);
    var memoryCoefficient := GetWeightedDefaultAllocationFor(table.memory, flags, component);
    if memoryCoefficient == 0.0 || cpuCoefficient == 0.0 {
      return Unset;
    }
    resources := ClampToMinima(
      Quantities(Scaled(limits.cpu, cpuCoefficient), Scaled(limits.memory, memoryCoefficient)),
      Quantities(Scaled(requests.cpu, cpuCoefficient), Scaled(requests.memory, memoryCoefficient)));
  }

  /** The second half of the distribution: small values are raised or dropped one after the other. */
  method ClampToMinima(limits: Quantities, requests: Quantities) returns (resources: Requirements)
    ensures resources == Clamped(limits, requests)
  {
    var cpuLimits, cpuRequests, memoryLimits, memoryRequests := limits.cpu, requests.cpu, limits.memory, requests.memory;
    if cpuRequests < MIN_CPU_REQUEST {
      cpuRequests := 0;
    }
    if Megabytes(memoryRequests) < MIN_MEMORY_MEGABYTES {
      memoryRequests := MIN_MEMORY_REQUEST;
    }
    if cpuLimits < cpuRequests {
      cpuLimits := cpuRequests;
    }
    if memoryLimits < memoryRequests {
      memoryLimits := memoryRequests;
    }
    if cpuLimits < MIN_CPU_LIMIT {
      cpuLimits := MIN_CPU_LIMIT;
    }
    resources := Requirements(Quantities(cpuLimits, memoryLimits), Quantities(cpuRequests, memoryRequests));
  }

  method GetWeightedDefaultAllocationFor(weights: Weights, flags: DeployFlags, component: Component) returns (allocation: real)
    requires Counted(flags, component)
    ensures allocation == Weight(weights, flags, component)
  {
    var leftover := GetLeftoverCoefficient(weights, flags);
    allocation := weights(component);
    if leftover > 0.0 {
      ComponentsAreComplete(component);
      CountedMeansCounted(flags, COMPONENTS, component);
      var deployed := GetNumberOfDeployedAstarteComponents(flags);
      allocation := allocation + leftover / deployed as real;
    }
  }

  /** Whatever the budget, a component that is given resources can use them: its limits cover its
      requests and no value sits in the range the operator calls starvation. */
  lemma RequirementsAreWorkable(table: Table, flags: DeployFlags, limits: Quantities, requests: Quantities, component: Component)
    requires Counted(flags, component) && Normalized(table.cpu) && Normalized(table.memory)
    ensures var r := Distributed(table, flags, limits, requests, component);
            && r.Requirements?
            && r.requests.cpu <= r.limits.cpu
            && r.requests.memory <= r.limits.memory
            && (r.requests.cpu == 0 || r.requests.cpu >= MIN_CPU_REQUEST)
            && r.limits.cpu >= MIN_CPU_LIMIT
            && Megabytes(r.requests.memory) >= MIN_MEMORY_MEGABYTES
  {
    WeightIsPositive(table.cpu, flags, component);
    WeightIsPositive(table.memory, flags, component);
  }

  // --- Exactly what is given ---

  /** Normalized weights and no negative budget. */
  ghost predicate Sensible(table: Table, budget: Requirements)
    requires budget.Requirements?
  {
    && Normalized(table.cpu) && Normalized(table.memory)
    && budget.limits.cpu >= 0 && budget.limits.memory >= 0 && budget.requests.cpu >= 0 && budget.requests.memory >= 0
  }

  /** The whole number of units in a component's part of a budget. */
  ghost function Part(budget: int, weights: Weights, flags: DeployFlags, component: Component): int
    requires Counted(flags, component)
  {
    (budget as real * Weight(weights, flags, component)).Floor
  }

  /** CPU requests are the component's part, or none below 150m; memory requests its part, or 128 MB if it
      has no more than 127 MB; limits are its part unless the request or 300m of CPU is more. */
  ghost predicate Granted(r: Requirements, table: Table, flags: DeployFlags, budget: Requirements, component: Component)
    requires Counted(flags, component) && budget.Requirements?
  {
    var cpu, memory := Part(budget.requests.cpu, table.cpu, flags, component), Part(budget.requests.memory, table.memory, flags, component);
    var cpuLimit, memoryLimit := Part(budget.limits.cpu, table.cpu, flags, component), Part(budget.limits.memory, table.memory, flags, component);
    && r.Requirements?
    && r.requests.cpu == (if cpu >= 150 then cpu else 0)
    && r.requests.memory == (if memory > 127_000_000 then memory else 128_000_000)
    && r.limits.cpu in {cpuLimit, r.requests.cpu, 300} && r.limits.cpu >= cpuLimit && r.limits.cpu >= r.requests.cpu && r.limits.cpu >= 300
    && r.limits.memory in {memoryLimit, r.requests.memory} && r.limits.memory >= memoryLimit && r.limits.memory >= r.requests.memory
  }

  lemma GrantedExactly(table: Table, flags: DeployFlags, budget: Requirements, component: Component)
    requires Counted(flags, component) && budget.Requirements? && Sensible(table, budget)
    ensures Granted(ResourcesFor(table, flags, Some(budget), None, component), table, flags, budget, component)
  {
    hide Weight, Normalized;
    WeightIsPositive(table.cpu, flags, component);
    WeightIsPositive(table.memory, flags, component);
    PartIsScaled(budget.limits.cpu, table.cpu, flags, component);
    PartIsScaled(budget.requests.cpu, table.cpu, flags, component);
    PartIsScaled(budget.limits.memory, table.memory, flags, component);
    PartIsScaled(budget.requests.memory, table.memory, flags, component);
    hide Part, Scaled;
    FewMegabytes(Scaled(budget.requests.memory, Weight(table.memory, flags, component)));
  }

  lemma PartIsScaled(budget: int, weights: Weights, flags: DeployFlags, component: Component)
    requires budget >= 0 && Normalized(weights) && Counted(flags, component)
    ensures Part(budget, weights, flags, component) == Scaled(budget, Weight(weights, flags, component))
  {
    WeightIsPositive(weights, flags, component);
    ScaledBounds(budget, Weight(weights, flags, component));
  }

  lemma FewMegabytes(bytes: int)
    ensures Megabytes(bytes) < 128 <==> bytes <= 127_000_000
  {
  }

  /** An example: two cores over all components, with the default weights. */
  lemma TwoCoresForAll(flags: DeployFlags, limits: Quantities, memory: nat, component: Component)
    requires (forall c :: Counted(flags, c)) && limits.cpu >= 0 && limits.memory >= 0
    ensures var budget := Requirements(limits, Quantities(2000, memory));
            var r := ResourcesFor(Table(DefaultWeight, DefaultWeight), flags, Some(budget), None, component);
            r.Requirements? &&
            r.requests.cpu ==
            match component
            case AppEngineAPI => 360
            case DataUpdaterPlant => 420
            case FlowComponent => 200
            case Housekeeping => 160
            case Pairing => 380
            case RealmManagement => 240
            case TriggerEngine => 0
            case Dashboard => 0
  {
    var budget := Requirements(limits, Quantities(2000, memory));
    DefaultWeightsAreNormalized();
    GrantedExactly(Table(DefaultWeight, DefaultWeight), flags, budget, component);
    NothingIsLeft(DefaultWeight, flags, COMPONENTS);
  }

  lemma NothingIsLeft(weights: Weights, flags: DeployFlags, components: seq<Component>)
    requires forall c :: Counted(flags, c)
    ensures Leftover(weights, flags, components) == 0.0
  {
  }

  // --- Requirements of all components ---

  /** The requests of a choice of components, none of which asked for explicit resources. */
  function Requests(table: Table, flags: DeployFlags, limits: Quantities, requests: Quantities, chosen: set<Component>): map<Component, Quantities>
    requires forall c <- chosen :: Counted(flags, c)
  {
    map c | c in chosen && Distributed(table, flags, limits, requests, c).Requirements? ::
      Distributed(table, flags, limits, requests, c).requests
  }

  function CpuSum(requests: map<Component, Quantities>): int {
    SumInt(map c | c in requests :: requests[c].cpu, COMPONENTS)
  }

  function MemorySum(requests: map<Component, Quantities>): int {
    SumInt(map c | c in requests :: requests[c].memory, COMPONENTS)
  }

  lemma NegativeBudgetScales(budget: int, coefficient: real)
    requires budget < 0 && coefficient > 0.0
    ensures Scaled(budget, coefficient) <= 0
  {
    assert budget as real * coefficient <= 0.0;
  }

  lemma {:induction false} SumOfSmaller(small: map<Component, int>, large: map<Component, int>, components: seq<Component>)
    requires small.Keys == large.Keys && forall c <- small :: small[c] <= large[c]
    ensures SumInt(small, components) <= SumInt(large, components)
  {
    if components != [] {
      SumOfSmaller(small, large, components[1..]);
    }
  }

  lemma {:induction false} SumOfZeros(values: map<Component, int>, components: seq<Component>)
    requires forall c <- values :: values[c] == 0
    ensures SumInt(values, components) == 0
  {
    if components != [] {
      SumOfZeros(values, components[1..]);
    }
  }

  lemma OneMore(floor: int, n: int)
    ensures floor * (1 + n) == floor + floor * n && floor * (0 + n) == floor * n
  {
  }

  lemma {:induction false} SumOfClamped(shares: map<Component, int>, clamped: map<Component, int>, floor: int, components: seq<Component>)
    requires shares.Keys == clamped.Keys && floor >= 0
    ensures (forall c <- shares :: 0 <= clamped[c] <= shares[c] + floor) ==>
              0 <= SumInt(clamped, components) <= SumInt(shares, components) + floor * Size(shares.Keys, components)
    ensures (forall c <- shares :: clamped[c] == floor) ==>
              SumInt(clamped, components) == floor * Size(shares.Keys, components)
  {
    if components != [] {
      SumOfClamped(shares, clamped, floor, components[1..]);
      OneMore(floor, Size(shares.Keys, components[1..]));
    }
  }

  /** What the clamps do to one share, for budgets of either sign. */
  lemma ClampedShare(budget: int, weights: Weights, flags: DeployFlags, component: Component)
    requires Normalized(weights) && Counted(flags, component)
    ensures var share := Scaled(budget, Weight(weights, flags, component));
            && (budget >= 0 ==> 0 <= CpuRequest(share) <= share && 0 <= MemoryRequest(share) <= share + MIN_MEMORY_REQUEST)
            && (budget < 0 ==> CpuRequest(share) == 0 && MemoryRequest(share) == MIN_MEMORY_REQUEST)
  {
    WeightIsPositive(weights, flags, component);
    if budget < 0 {
      NegativeBudgetScales(budget, Weight(weights, flags, component));
    } else {
      ScaledBounds(budget, Weight(weights, flags, component));
    }
  }

  lemma AllGetResources(table: Table, flags: DeployFlags, limits: Quantities, requests: Quantities, chosen: set<Component>)
    requires Normalized(table.cpu) && Normalized(table.memory) && forall c <- chosen :: Counted(flags, c)
    ensures Requests(table, flags, limits, requests, chosen).Keys == chosen
  {
    forall c | c in chosen
      ensures Distributed(table, flags, limits, requests, c).Requirements?
    {
      RequirementsAreWorkable(table, flags, limits, requests, c);
    }
  }

  lemma CpuRequestBounds(table: Table, flags: DeployFlags, limits: Quantities, requests: Quantities, chosen: set<Component>)
    requires Normalized(table.cpu) && Normalized(table.memory) && forall c <- chosen :: Counted(flags, c)
    ensures var given, shares := Requests(table, flags, limits, requests, chosen), Shares(requests.cpu, table.cpu, flags, chosen);
            && given.Keys == shares.Keys == chosen
            && (requests.cpu >= 0 ==> forall c <- shares :: 0 <= given[c].cpu <= shares[c])
            && (requests.cpu < 0 ==> forall c <- shares :: given[c].cpu == 0)
  {
    AllGetResources(table, flags, limits, requests, chosen);
    forall c | c in chosen {
      ClampedShare(requests.cpu, table.cpu, flags, c);
    }
  }

  lemma MemoryRequestBounds(table: Table, flags: DeployFlags, limits: Quantities, requests: Quantities, chosen: set<Component>)
    requires Normalized(table.cpu) && Normalized(table.memory) && forall c <- chosen :: Counted(flags, c)
    ensures var given, shares := Requests(table, flags, limits, requests, chosen), Shares(requests.memory, table.memory, flags, chosen);
            && given.Keys == shares.Keys == chosen
            && (requests.memory >= 0 ==> forall c <- shares :: 0 <= given[c].memory <= shares[c] + MIN_MEMORY_REQUEST)
            && (requests.memory < 0 ==> forall c <- shares :: given[c].memory == MIN_MEMORY_REQUEST)
  {
    AllGetResources(table, flags, limits, requests, chosen);
    forall c | c in chosen {
      ClampedShare(requests.memory, table.memory, flags, c);
    }
  }

  /** Over any components without explicit resources, the clamped CPU requests fit the CPU budget
      exactly when that budget is not negative. */
  lemma CpuRequestsFitTheBudget(table: Table, flags: DeployFlags, limits: Quantities, requests: Quantities, chosen: set<Component>)
    requires Normalized(table.cpu) && Normalized(table.memory) && forall c <- chosen :: Counted(flags, c)
    ensures CpuSum(Requests(table, flags, limits, requests, chosen)) <= requests.cpu <==> requests.cpu >= 0
  {
    var given := Requests(table, flags, limits, requests, chosen);
    var clamped := map c | c in given :: given[c].cpu;
    CpuRequestBounds(table, flags, limits, requests, chosen);
    if requests.cpu >= 0 {
      SumOfSmaller(clamped, Shares(requests.cpu, table.cpu, flags, chosen), COMPONENTS);
      ChosenSharesFit(requests.cpu, table.cpu, flags, chosen);
    } else {
      SumOfZeros(clamped, COMPONENTS);
    }
  }

  /** The clamped memory requests exceed their budget by at most 128 MB per component, again
      exactly when the budget is not negative. */
  lemma MemoryRequestsFitTheBudget(table: Table, flags: DeployFlags, limits: Quantities, requests: Quantities, chosen: set<Component>)
    requires Normalized(table.cpu) && Normalized(table.memory) && forall c <- chosen :: Counted(flags, c)
    ensures MemorySum(Requests(table, flags, limits, requests, chosen)) <= requests.memory + MIN_MEMORY_REQUEST * Size(chosen, COMPONENTS)
            <==> requests.memory >= 0
  {
    var given := Requests(table, flags, limits, requests, chosen);
    var clamped := map c | c in given :: given[c].memory;
    MemoryRequestBounds(table, flags, limits, requests, chosen);
    SumOfClamped(Shares(requests.memory, table.memory, flags, chosen), clamped, MIN_MEMORY_REQUEST, COMPONENTS);
    if requests.memory >= 0 { ChosenSharesFit(requests.memory, table.memory, flags, chosen); }
  }

  lemma ChosenSharesFit(budget: int, weights: Weights, flags: DeployFlags, chosen: set<Component>)
    requires budget >= 0 && Normalized(weights) && forall c <- chosen :: Counted(flags, c)
    ensures ShareSum(budget, weights, flags, chosen) <= budget
  {
    hide Shares, SumInt, WeightSum, Weight, Count, Normalized, Size;
    ShareSumBounds(budget, weights, flags, chosen, COMPONENTS);
    ChosenWeighAtMostOne(weights, flags, chosen);
    FitsWhenWeightFits(budget, WeightSum(weights, flags, chosen, COMPONENTS), ShareSum(budget, weights, flags, chosen));
  }

  lemma ChosenWeighAtMostOne(weights: Weights, flags: DeployFlags, chosen: set<Component>)
    requires Normalized(weights) && forall c <- chosen :: Counted(flags, c)
    ensures WeightSum(weights, flags, chosen, COMPONENTS) <= 1.0
  {
    hide WeightSum, Weight, Normalized;
    if c :| c in chosen {
      ComponentsAreComplete(c);
      CountedMeansCounted(flags, COMPONENTS, c);
      hide Count;
      WeightsAreConserved(weights, flags);
      SmallerChoiceWeighsLess(weights, flags, chosen, AllCounted(flags), COMPONENTS);
    } else {
      NothingWeighsNothing(weights, flags, COMPONENTS);
      assert chosen == {};
    }
  }

  lemma FitsWhenWeightFits(budget: int, weight: real, sum: int)
    requires budget >= 0 && weight <= 1.0 && sum as real <= budget as real * weight
    ensures sum <= budget
  {
    ScaleReal(weight, 1.0, budget as real);
  }

  lemma NothingWeighsNothing(weights: Weights, flags: DeployFlags, components: seq<Component>)
    ensures WeightSum(weights, flags, {}, components) == 0.0
  {
  }

  lemma {:induction false} SumAbove(values: map<Component, int>, exact: map<Component, real>, slack: nat, components: seq<Component>)
    requires values.Keys == exact.Keys && forall c <- values :: exact[c] - slack as real < values[c] as real
    ensures var size := Size(values.Keys, components);
            && SumReal(exact, components) - (slack * size) as real <= SumInt(values, components) as real
            && (size >= 1 ==> SumReal(exact, components) - (slack * size) as real < SumInt(values, components) as real)
  {
    if components != [] {
      SumAbove(values, exact, slack, components[1..]);
      OneMore(slack, Size(values.Keys, components[1..]));
    }
  }

  /** All counted components together get what the budget has, up to so much for each. */
  lemma AllTogether(values: map<Component, int>, budget: int, weights: Weights, flags: DeployFlags, slack: nat)
    requires budget >= 0 && Normalized(weights) && Count(flags, COMPONENTS) >= 1 && values.Keys == AllCounted(flags)
    requires forall c <- values :: budget as real * Weight(weights, flags, c) - slack as real < values[c] as real
    ensures budget - slack * Count(flags, COMPONENTS) < SumInt(values, COMPONENTS)
  {
    hide Weight, Normalized, SumInt, SumReal, WeightSum, Count, Size;
    var exact := ExactShares(budget, weights, flags, AllCounted(flags));
    SumAbove(values, exact, slack, COMPONENTS);
    ExactSharesFactor(budget, weights, flags, AllCounted(flags), COMPONENTS);
    WeightsAreConserved(weights, flags);
    SizeIsCount(flags, COMPONENTS);
    assert budget as real * 1.0 == budget as real;
  }

  lemma RequestsFallShortBy(table: Table, flags: DeployFlags, budget: Requirements, component: Component)
    requires Counted(flags, component) && budget.Requirements? && Sensible(table, budget)
    ensures var r := ResourcesFor(table, flags, Some(budget), None, component);
            && r.Requirements?
            && budget.requests.cpu as real * Weight(table.cpu, flags, component) - 150.0 < r.requests.cpu as real
            && budget.requests.memory as real * Weight(table.memory, flags, component) - 1.0 < r.requests.memory as real
  {
    hide Weight, Normalized, ResourcesFor;
    GrantedExactly(table, flags, budget, component);
  }

  /** The requests of all counted components use up the budget: of CPU all but less than 150m for each, and
      no more than there is; of memory all but less than one byte for each, and at most 128 MB more for each. */
  lemma RequestsUseTheBudget(table: Table, flags: DeployFlags, budget: Requirements)
    requires budget.Requirements? && Sensible(table, budget) && Count(flags, COMPONENTS) >= 1
    ensures var given, n := Requests(table, flags, budget.limits, budget.requests, AllCounted(flags)), Count(flags, COMPONENTS);
            && budget.requests.cpu - 150 * n < CpuSum(given) <= budget.requests.cpu
            && budget.requests.memory - n < MemorySum(given) <= budget.requests.memory + 128_000_000 * n
  {
    hide Weight, Normalized, SumInt, WeightSum, Count, Size, Distributed;
    var all := AllCounted(flags);
    var given := Requests(table, flags, budget.limits, budget.requests, all);
    AllGetResources(table, flags, budget.limits, budget.requests, all);
    forall c | c in all
      ensures budget.requests.cpu as real * Weight(table.cpu, flags, c) - 150.0 < given[c].cpu as real
      ensures budget.requests.memory as real * Weight(table.memory, flags, c) - 1.0 < given[c].memory as real
    {
      RequestsFallShortBy(table, flags, budget, c);
    }
    AllTogether(map c | c in given :: given[c].cpu, budget.requests.cpu, table.cpu, flags, 150);
    AllTogether(map c | c in given :: given[c].memory, budget.requests.memory, table.memory, flags, 1);
    CpuRequestsFitTheBudget(table, flags, budget.limits, budget.requests, all);
    MemoryRequestsFitTheBudget(table, flags, budget.limits, budget.requests, all);
    SizeIsCount(flags, COMPONENTS);
  }

  // --- Turning a component off ---

  lemma {:induction false} TurningOffMovesWeight(weights: Weights, flags: DeployFlags, off: Component, components: seq<Component>)
    requires Counted(flags, off) && NoRepeats(components)
    ensures var flags' := flags[off := false];
            var here := off in components;
            && Count(flags', components) == Count(flags, components) - (if here then 1 else 0)
            && Leftover(weights, flags', components) == Leftover(weights, flags, components) + (if here then weights(off) else 0.0)
  {
    if components != [] {
      TurningOffMovesWeight(weights, flags, off, components[1..]);
    }
  }

  predicate NoRepeats(components: seq<Component>) {
    components != [] ==> components[0] !in components[1..] && NoRepeats(components[1..])
  }

  lemma ComponentsDoNotRepeat()
    ensures NoRepeats(COMPONENTS)
  {
    assert NoRepeats(COMPONENTS[6..]);
    assert NoRepeats(COMPONENTS[4..]) by { assert COMPONENTS[4..][1..][1..] == COMPONENTS[6..]; }
    assert NoRepeats(COMPONENTS[2..]) by { assert COMPONENTS[2..][1..][1..] == COMPONENTS[4..]; }
    assert COMPONENTS[1..][1..] == COMPONENTS[2..];
  }

  /** Dividing more by less gives more. */
  lemma LargerShare(a: real, b: real, n: real)
    requires 0.0 <= a < b && n >= 1.0
    ensures a / (n + 1.0) < b / n
  {
    assert a / (n + 1.0) <= a / n by {
      Cancel(a, n + 1.0);
      Cancel(a, n);
      SmallerQuotient(a / (n + 1.0), a / n, n);
    }
    Cancel(a, n);
    Cancel(b, n);
    StrictlySmaller(a / n, b / n, n);
  }

  lemma SmallerQuotient(x: real, y: real, n: real)
    requires n >= 1.0 && x * (n + 1.0) == y * n && y * n >= 0.0
    ensures x <= y
  {
    DistributeReal(x, n, 1.0);
    if x < 0.0 {
      ScaleReal(x, 0.0, n + 1.0);
    } else if y < x {
      ScaleReal(y, x, n);
    }
  }

  lemma StrictlySmaller(x: real, y: real, n: real)
    requires n >= 1.0 && x * n < y * n
    ensures x < y
  {
  }

  lemma TurningOffRaisesTheBonus(weights: Weights, flags: DeployFlags, off: Component, other: Component)
    requires Normalized(weights) && Counted(flags, off) && Counted(flags, other) && off != other
    ensures Count(flags, COMPONENTS) >= 1 && Count(flags[off := false], COMPONENTS) >= 1
    ensures Bonus(weights, flags) < Bonus(weights, flags[off := false])
  {
    hide Count, Leftover, NoRepeats;
    ComponentsAreComplete(off);
    ComponentsAreComplete(other);
    ComponentsDoNotRepeat();
    TurningOffMovesWeight(weights, flags, off, COMPONENTS);
    CountedMeansCounted(flags[off := false], COMPONENTS, other);
    CountedMeansCounted(flags, COMPONENTS, other);
    LeftoverIsNotNegative(weights, flags, COMPONENTS);
    LargerShare(Leftover(weights, flags, COMPONENTS), Leftover(weights, flags[off := false], COMPONENTS), Count(flags[off := false], COMPONENTS) as real);
  }

  /** Turning a component off strictly raises the weight of every component that stays on, and
      keeps the differences between them. */
  lemma TurningOffHelpsTheOthers(weights: Weights, flags: DeployFlags, off: Component, a: Component, b: Component)
    requires Normalized(weights)
    requires Counted(flags, off) && Counted(flags, a) && Counted(flags, b) && off != a && off != b
    ensures var flags' := flags[off := false];
            && Weight(weights, flags, a) < Weight(weights, flags', a)
            && Weight(weights, flags', a) - Weight(weights, flags', b) == Weight(weights, flags, a) - Weight(weights, flags, b)
  {
    TurningOffRaisesTheBonus(weights, flags, off, a);
  }

  lemma OrderOfIntegers(a: int, b: int, x: real, y: real)
    requires a as real <= x <= y && y - 1.0 < b as real
    ensures a <= b
  {
    assert a as real < (b + 1) as real;
  }

  lemma LargerWeightLargerRequest(budget: int, small: real, large: real)
    requires 0.0 < small < large
    ensures CpuRequest(Scaled(budget, small)) <= CpuRequest(Scaled(budget, large))
  {
    hide Scaled;
    if budget >= 0 {
      ScaledBounds(budget, small);
      ScaledBounds(budget, large);
      ScaleReal(small, large, budget as real);
      OrderOfIntegers(Scaled(budget, small), Scaled(budget, large), budget as real * small, budget as real * large);
    } else {
      NegativeBudgetScales(budget, small);
      NegativeBudgetScales(budget, large);
    }
  }

  /** Turning a component off lowers nobody else's CPU request, whatever the budget. */
  lemma TurningOffLowersNoCpuRequest(table: Table, flags: DeployFlags, limits: Quantities, requests: Quantities, off: Component, other: Component)
    requires Normalized(table.cpu) && Normalized(table.memory)
    requires Counted(flags, off) && Counted(flags, other) && off != other
    ensures var before := Distributed(table, flags, limits, requests, other);
            var after := Distributed(table, flags[off := false], limits, requests, other);
            before.Requirements? && after.Requirements? && before.requests.cpu <= after.requests.cpu
  {
    TurningOffHelpsTheOthers(table.cpu, flags, off, other, other);
    RequirementsAreWorkable(table, flags, limits, requests, other);
    RequirementsAreWorkable(table, flags[off := false], limits, requests, other);
    WeightIsPositive(table.cpu, flags, other);
    LargerWeightLargerRequest(requests.cpu, Weight(table.cpu, flags, other), Weight(table.cpu, flags[off := false], other));
  }
}
