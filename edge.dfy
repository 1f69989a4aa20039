/** The edge value of the edge package (edge/Edge.java): two nullable
    endpoint ids, setters that refuse a null or blank id, and an
    equality that ignores the orientation. */
module EdgeValue {
  import opened Base
  import opened Text

  const SourceMessage: string := "source cannot be null or blank"
  const TargetMessage: string := "target cannot be null or blank"

  /** A nullable id that the setters refuse: null, or blank. */
  predicate Missing(s: Option<string>)
  {
    s.None? || IsBlank(s.value)
  }

  class Edge {
    var source: Option<string>
    var target: Option<string>

    /** Edge(): both endpoints null. */
    constructor Empty()
      ensures source.None? && target.None?
    {
      source := None;
      target := None;
    }

    /** Edge(source, target): stores both as given, without the setters'
        checks. */
    constructor (source: Option<string>, target: Option<string>)
      ensures this.source == source && this.target == target
    {
      this.source := source;
      this.target := target;
    }

    /** setSource: refuses a null or blank id and changes nothing then;
        otherwise sets the source only. */
    method SetSource(s: Option<string>) returns (r: Result<Edge>)
      modifies this
      ensures r.Err? <==> Missing(s)
      ensures r.Err? ==> r.error == IllegalArgument(SourceMessage) && source == old(source)
      ensures r.Ok? ==> r.value == this && source == s
      ensures target == old(target)
    {
      if s.None? || IsBlank(s.value) {
        return Err(IllegalArgument(SourceMessage));
      }
      source := s;
      r := Ok(this);
    }

    /** setTarget: refuses a null or blank id and changes nothing then;
        otherwise sets the target only. */
    method SetTarget(t: Option<string>) returns (r: Result<Edge>)
      modifies this
      ensures r.Err? <==> Missing(t)
      ensures r.Err? ==> r.error == IllegalArgument(TargetMessage) && target == old(target)
      ensures r.Ok? ==> r.value == this && target == t
      ensures source == old(source)
    {
      if t.None? || IsBlank(t.value) {
        return Err(IllegalArgument(TargetMessage));
      }
      target := t;
      r := Ok(this);
    }

    /** The endpoints, without their orientation. */
    function Ends(): multiset<Option<string>>
      reads this
    {
      multiset{source, target}
    }

    /** equals: the same object, or the same endpoints in the same or
        the swapped orientation; that is, the same unordered pair. */
    function Equals(o: Edge): (r: bool)
      reads this, o
      ensures r <==> Ends() == o.Ends()
    {
      PairEnds(source, target, o.source, o.target);
      this == o
      || (source == o.source && target == o.target)
      || (source == o.target && target == o.source)
    }
  }

  /** Two two-element multisets are equal exactly when their elements
      match in the same or the swapped order. */
  lemma PairEnds<T>(a: T, b: T, c: T, d: T)
    ensures multiset{a, b} == multiset{c, d} <==> (a == c && b == d) || (a == d && b == c)
  {
    if multiset{a, b} == multiset{c, d} {
      assert a in multiset{c, d};
      if a == c {
        assert multiset{a, b} - multiset{a} == multiset{b};
        assert multiset{c, d} - multiset{c} == multiset{d};
      } else {
        assert a == d;
        assert multiset{a, b} - multiset{a} == multiset{b};
        assert multiset{c, d} - multiset{d} == multiset{c};
      }
    }
  }

  /** An edge equals its reverse. */
  lemma EqualsReversed(e: Edge, f: Edge)
    requires f.source == e.target && f.target == e.source
    ensures e.Equals(f) && f.Equals(e)
  {
  }

  /** equals is an equivalence: reflexive, symmetric and transitive. */
  lemma EqualsEquivalence(e: Edge, f: Edge, g: Edge)
    ensures e.Equals(e)
    ensures e.Equals(f) ==> f.Equals(e)
    ensures e.Equals(f) && f.Equals(g) ==> e.Equals(g)
  {
  }
}
