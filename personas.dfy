/** Persona variant generation (`mutate_persona`, `get_50_personas`).
    The random draws (`random.choice`, `random.randint`, `random.uniform`)
    are an oracle: one `Draw` per variant, in the order they are made. */
module Personas {
  import opened Wrappers
  import opened Text

  /** The segment name that selects every seed group. */
  const AllSegments: string := "All Segments"

  /** How many variants one sprint run asks for. */
  const TargetCount: nat := 50

  /** A persona record; `extra` holds any further keys of the seed's
      dictionary, which a deep copy carries over unchanged. */
  datatype Persona = Persona(
    name: string,
    age: int,
    occupation: string,
    location: string,
    income: int,
    extra: map<string, string>)

  /** A seed group: a segment label and an optional male and female persona. */
  datatype SeedGroup = SeedGroup(segment: string, male: Option<Persona>, female: Option<Persona>)

  /** The random values drawn for one variant: the index `random.choice`
      picks in the base pool, the age `random.randint` returns and the factor
      `random.uniform(0.7, 1.3)` returns. */
  datatype Draw = Draw(pick: nat, age: int, incomeFactor: real)

  datatype PersonaError =
    | EmptyPool      // random.choice on an empty pool raises IndexError
    | NoFirstName    // name.split()[0] on a blank name raises IndexError
    | EmptyAgeRange  // random.randint(lo, hi) with lo > hi raises ValueError

  /** Bounds of `random.randint(max(18, age - 5), age + 5)`. */
  function AgeLow(age: int): int {
    if age - 5 < 18 then 18 else age - 5
  }

  function AgeHigh(age: int): int {
    age + 5
  }

  /** The age oracle honours randint's contract whenever randint can return. */
  predicate AgeDrawFits(seedAge: int, drawn: int) {
    AgeLow(seedAge) <= AgeHigh(seedAge) ==> AgeLow(seedAge) <= drawn <= AgeHigh(seedAge)
  }

  /** The factor oracle honours uniform(0.7, 1.3)'s contract. */
  predicate FactorFits(factor: real) {
    0.7 <= factor <= 1.3
  }

  /** Python's `int(x)` on a number: truncation toward zero. */
  function TruncateToInt(x: real): (n: int)
    ensures 0.0 <= x ==> 0 <= n && n as real <= x < n as real + 1.0
    ensures x < 0.0 ==> n <= 0 && n as real - 1.0 < x <= n as real
  {
    if x >= 0.0 then x.Floor else -((-x).Floor)
  }

  /** `f"{first} Variant {idx+1}"`. */
  function VariantName(first: string, idx: nat): string {
    first + " Variant " + NatToString(idx + 1)
  }

  /** What every variant of `seed` made with index `idx` satisfies; for a
      non-negative seed income, the variant's income is between 0.7 and 1.3
      times it, truncated. */
  predicate IsVariantOf(v: Persona, seed: Persona, idx: nat) {
    && FirstToken(v.name) == FirstToken(seed.name)
    && EndsWith(v.name, " Variant " + NatToString(idx + 1))
    && AgeLow(seed.age) <= v.age <= AgeHigh(seed.age)
    && v.occupation == seed.occupation
    && v.location == seed.location
    && v.extra == seed.extra
    && (0 <= seed.income ==> IncomeVariant(v.income, seed.income))
  }

  /** `n` is at least 0, at most 1.3 times `income` and less than one below
      0.7 times it. */
  predicate IncomeVariant(n: int, income: int) {
    0 <= n && n as real <= income as real * 1.3 && income as real * 0.7 < n as real + 1.0
  }

  /** A variant's name starts with the seed's first name and ends in its number. */
  lemma VariantNameShape(first: string, idx: nat)
    requires first != [] && NoSpace(first)
    ensures FirstToken(VariantName(first, idx)) == Some(first)
    ensures EndsWith(VariantName(first, idx), " Variant " + NatToString(idx + 1))
  {
    var tail := " Variant " + NatToString(idx + 1);
    assert VariantName(first, idx) == first + tail;
    FirstTokenOfPrefix(first, tail);
  }

  /** `mutate_persona(seed, idx)`: a renamed copy of `seed` with a re-drawn
      age and a perturbed income; the seed itself is a value and so is never
      changed. Fails where Python raises: a blank name, then an empty age range. */
  function MutatePersona(seed: Persona, idx: nat, ageDraw: int, factor: real): (r: Result<Persona, PersonaError>)
    requires AgeDrawFits(seed.age, ageDraw) && FactorFits(factor)
    ensures AllSpace(seed.name) ==> r == Failure(NoFirstName)
    ensures !AllSpace(seed.name) && seed.age < 13 ==> r == Failure(EmptyAgeRange)
    ensures r.Success? <==> !AllSpace(seed.name) && 13 <= seed.age
  {
    match FirstToken(seed.name)
    case None => Failure(NoFirstName)
    case Some(first) =>
      if AgeLow(seed.age) > AgeHigh(seed.age) then Failure(EmptyAgeRange)
      else
        Success(seed.(name := VariantName(first, idx), age := ageDraw, income := PerturbedIncome(seed.income, factor)))
  }

  /** What a successful mutate_persona returns: the seed's first name with
      the variant number, an age from the randint range (so at least 18),
      the seed's other fields, and for a non-negative income one between 0.7
      and 1.3 times the seed's, truncated (all but the exact name and the
      lower age bound are folded into `IsVariantOf`). */
  lemma MutationIsVariant(seed: Persona, idx: nat, ageDraw: int, factor: real)
    requires AgeDrawFits(seed.age, ageDraw) && FactorFits(factor)
    ensures var r := MutatePersona(seed, idx, ageDraw, factor);
            r.Success? ==>
              && IsVariantOf(r.value, seed, idx) && 18 <= r.value.age
              && r.value.name == VariantName(FirstToken(seed.name).value, idx)
  {
    if MutatePersona(seed, idx, ageDraw, factor).Success? {
      VariantNameShape(FirstToken(seed.name).value, idx);
      IncomeBounds(seed.income, factor);
    }
  }

  /** `int(income * factor)`, computed on exact reals. */
  function PerturbedIncome(income: int, factor: real): int {
    TruncateToInt(income as real * factor)
  }

  /** A non-negative income scaled by a factor in [0.7, 1.3] and truncated
      stays non-negative, at most 1.3 times and less than one above 0.7 times
      the original. */
  lemma IncomeBounds(income: int, factor: real)
    requires FactorFits(factor)
    ensures 0 <= income ==> IncomeVariant(PerturbedIncome(income, factor), income)
  {
    var x := income as real;
    if 0 <= income {
      assert 0.0 <= x * (factor - 0.7);
      assert 0.0 <= x * (1.3 - factor);
      assert x * (factor - 0.7) == x * factor - x * 0.7;
      assert x * (1.3 - factor) == x * 1.3 - x * factor;
    }
  }

  /** The groups a segment request selects, in their original order. */
  function SelectGroups(segment: string, groups: seq<SeedGroup>): (r: seq<SeedGroup>)
    ensures forall g :: g in r <==> g in groups && (segment == AllSegments || g.segment == segment)
    decreases |groups|
  {
    if segment == AllSegments then groups
    else if groups == [] then []
    else
      var tail := SelectGroups(segment, groups[1..]);
      assert forall g :: g in groups <==> g == groups[0] || g in groups[1..];
      if groups[0].segment == segment then [groups[0]] + tail else tail
  }

  /** The present (truthy) `male` and `female` entries of one group. */
  function GroupMembers(g: SeedGroup): (r: seq<Persona>)
    ensures forall p :: p in r <==> g.male == Some(p) || g.female == Some(p)
  {
    (if g.male.Some? then [g.male.value] else []) + (if g.female.Some? then [g.female.value] else [])
  }

  /** The members of a list of groups, group by group, male before female. */
  function Flatten(groups: seq<SeedGroup>): seq<Persona>
    decreases |groups|
  {
    if groups == [] then [] else GroupMembers(groups[0]) + Flatten(groups[1..])
  }

  lemma {:induction false} FlattenMembers(groups: seq<SeedGroup>, p: Persona)
    ensures p in Flatten(groups) <==> exists g :: g in groups && (g.male == Some(p) || g.female == Some(p))
    decreases |groups|
  {
    if groups != [] {
      FlattenMembers(groups[1..], p);
      assert forall g :: g in groups <==> g == groups[0] || g in groups[1..];
    }
  }

  /** The base pool of `get_50_personas`. */
  function BasePool(segment: string, groups: seq<SeedGroup>): seq<Persona> {
    Flatten(SelectGroups(segment, groups))
  }

  /** A persona is in the pool exactly when it is the male or female entry of
      a group of the requested segment (of any group for "All Segments"). */
  lemma BasePoolMembers(segment: string, groups: seq<SeedGroup>, p: Persona)
    ensures p in BasePool(segment, groups) <==>
              exists g :: g in groups && (segment == AllSegments || g.segment == segment)
                          && (g.male == Some(p) || g.female == Some(p))
  {
    FlattenMembers(SelectGroups(segment, groups), p);
  }

  /** The draw oracle honours the contracts of choice, randint and uniform. */
  predicate DrawFits(pool: seq<Persona>, d: Draw) {
    d.pick < |pool| && AgeDrawFits(pool[d.pick].age, d.age) && FactorFits(d.incomeFactor)
  }

  predicate DrawsFit(pool: seq<Persona>, draws: seq<Draw>) {
    forall k :: 0 <= k < |draws| ==> DrawFits(pool, draws[k])
  }

  /** The `k`-th call of mutate_persona in the loop. */
  function Mutation(pool: seq<Persona>, draws: seq<Draw>, k: nat): Result<Persona, PersonaError>
    requires k < |draws| && DrawFits(pool, draws[k])
  {
    var d := draws[k];
    MutatePersona(pool[d.pick], k, d.age, d.incomeFactor)
  }

  /** The outcomes of all mutate_persona calls the draws call for. */
  function Mutations(pool: seq<Persona>, draws: seq<Draw>): (r: seq<Result<Persona, PersonaError>>)
    requires DrawsFit(pool, draws)
    ensures |r| == |draws| && forall k :: 0 <= k < |draws| ==> r[k] == Mutation(pool, draws, k)
  {
    seq(|draws|, k requires 0 <= k < |draws| => Mutation(pool, draws, k))
  }

  /** Running a sequence of steps that may raise: the list of their values,
      or the error of the first step that raises. */
  function Collect<T, E>(rs: seq<Result<T, E>>): Result<seq<T>, E>
    decreases |rs|
  {
    if rs == [] then Success([])
    else if rs[0].Failure? then Failure(rs[0].error)
    else
      match Collect(rs[1..])
      case Failure(e) => Failure(e)
      case Success(vs) => Success([rs[0].value] + vs)
  }

  /** When every step succeeds, Collect gives exactly their values. */
  lemma {:induction false} CollectAllSucceed<T, E>(rs: seq<Result<T, E>>, vs: seq<T>)
    requires |rs| == |vs| && forall k :: 0 <= k < |rs| ==> rs[k] == Success(vs[k])
    ensures Collect(rs) == Success(vs)
    decreases |rs|
  {
    if rs != [] {
      CollectAllSucceed(rs[1..], vs[1..]);
      assert [vs[0]] + vs[1..] == vs;
    }
  }

  /** When step `i` is the first to fail, Collect fails with its error. */
  lemma {:induction false} CollectFirstFailure<T, E>(rs: seq<Result<T, E>>, i: nat)
    requires i < |rs| && rs[i].Failure? && forall k :: 0 <= k < i ==> rs[k].Success?
    ensures Collect(rs) == Failure(rs[i].error)
    decreases i
  {
    if i > 0 {
      CollectFirstFailure(rs[1..], i - 1);
    }
  }

  /** The specification of the variant loop: EmptyPool when the pool is
      empty, otherwise the 50 mutations or the first error among them. */
  function VariantsOf(pool: seq<Persona>, draws: seq<Draw>): Result<seq<Persona>, PersonaError>
    requires |draws| == TargetCount
    requires pool != [] ==> DrawsFit(pool, draws)
  {
    if pool == [] then Failure(EmptyPool) else Collect(Mutations(pool, draws))
  }

  /** The specification of `get_50_personas`. */
  function PersonaVariants(segment: string, groups: seq<SeedGroup>, draws: seq<Draw>): Result<seq<Persona>, PersonaError>
    requires |draws| == TargetCount
    requires BasePool(segment, groups) != [] ==> DrawsFit(BasePool(segment, groups), draws)
  {
    VariantsOf(BasePool(segment, groups), draws)
  }

  /** `get_50_personas(segment, persona_groups)`: select the base pool, then
      run the variant loop over it. */
  method Get50Personas(segment: string, groups: seq<SeedGroup>, draws: seq<Draw>)
    returns (r: Result<seq<Persona>, PersonaError>)
    requires |draws| == TargetCount
    requires BasePool(segment, groups) != [] ==> DrawsFit(BasePool(segment, groups), draws)
    ensures r == PersonaVariants(segment, groups, draws)
    ensures BasePool(segment, groups) == [] ==> r == Failure(EmptyPool)
    ensures r.Success? ==> |r.value| == TargetCount
  {
    var pool := BasePool(segment, groups);
    r := GrowVariants(pool, draws);
  }

  /** The `while len(out) < 50` loop of `get_50_personas`: the `i`-th
      variant is a mutation, with index `i`, of the `i`-th random choice. */
  method GrowVariants(pool: seq<Persona>, draws: seq<Draw>) returns (r: Result<seq<Persona>, PersonaError>)
    requires |draws| == TargetCount
    requires pool != [] ==> DrawsFit(pool, draws)
    ensures r == VariantsOf(pool, draws)
    ensures r.Success? ==> |r.value| == TargetCount
  {
    var out: seq<Persona> := [];
    var i := 0;
    ghost var rs: seq<Result<Persona, PersonaError>> := if pool == [] then [] else Mutations(pool, draws);
    while |out| < TargetCount
      invariant i == |out| <= TargetCount
      invariant i > 0 ==> pool != []
      invariant pool != [] ==> |rs| == TargetCount && Collect(rs[..i]) == Success(out)
    {
      if pool == [] {
        return Failure(EmptyPool);
      }
      var m := MutateDrawn(pool, draws, i);
      if m.Failure? {
        CollectThenFailure(rs, i, out);
        return Failure(m.error);
      }
      CollectThenSuccess(rs, i, out);
      out := out + [m.value];
      i := i + 1;
    }
    assert rs[..i] == rs;
    assert out[..TargetCount] == out;
    r := Success(out[..TargetCount]);
  }

  /** `mutate_persona(random.choice(pool), i)` with the `i`-th draw. */
  method MutateDrawn(pool: seq<Persona>, draws: seq<Draw>, i: nat) returns (m: Result<Persona, PersonaError>)
    requires i < |draws| && DrawFits(pool, draws[i])
    ensures m == Mutation(pool, draws, i)
  {
    var d := draws[i];
    m := MutatePersona(pool[d.pick], i, d.age, d.incomeFactor);
  }

  /** One more successful step extends the collected values. */
  lemma CollectThenSuccess<T, E>(rs: seq<Result<T, E>>, i: nat, vs: seq<T>)
    requires i < |rs| && Collect(rs[..i]) == Success(vs) && rs[i].Success?
    ensures Collect(rs[..i + 1]) == Success(vs + [rs[i].value])
  {
    CollectChar(rs[..i], vs);
    CollectAllSucceed(rs[..i + 1], vs + [rs[i].value]);
  }

  /** A failing step after successful ones is the error of the whole run. */
  lemma CollectThenFailure<T, E>(rs: seq<Result<T, E>>, i: nat, vs: seq<T>)
    requires i < |rs| && Collect(rs[..i]) == Success(vs) && rs[i].Failure?
    ensures Collect(rs) == Failure(rs[i].error)
  {
    CollectChar(rs[..i], vs);
    CollectFirstFailure(rs, i);
  }

  /** Every persona of a successful run is a variant, made with its own
      position as index, of a seed from a group of the requested segment. */
  lemma VariantsComeFromSegment(segment: string, groups: seq<SeedGroup>, draws: seq<Draw>, vs: seq<Persona>, k: nat)
    requires |draws| == TargetCount && k < TargetCount
    requires BasePool(segment, groups) != [] ==> DrawsFit(BasePool(segment, groups), draws)
    requires PersonaVariants(segment, groups, draws) == Success(vs)
    ensures |vs| == TargetCount
    ensures exists g :: g in groups && (segment == AllSegments || g.segment == segment)
                        && ((g.male.Some? && IsVariantOf(vs[k], g.male.value, k))
                            || (g.female.Some? && IsVariantOf(vs[k], g.female.value, k)))
  {
    var pool := BasePool(segment, groups);
    CollectChar(Mutations(pool, draws), vs);
    var seed := pool[draws[k].pick];
    assert Mutation(pool, draws, k) == Success(vs[k]);
    MutationIsVariant(seed, k, draws[k].age, draws[k].incomeFactor);
    BasePoolMembers(segment, groups, seed);
  }

  /** A successful Collect holds the value of every step, in order. */
  lemma {:induction false} CollectChar<T, E>(rs: seq<Result<T, E>>, vs: seq<T>)
    requires Collect(rs) == Success(vs)
    ensures |vs| == |rs| && forall k :: 0 <= k < |rs| ==> rs[k] == Success(vs[k])
    decreases |rs|
  {
    if rs != [] {
      CollectChar(rs[1..], vs[1..]);
    }
  }
}
