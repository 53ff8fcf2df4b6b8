/** The `Provider` registry of `src/providers/base.py`: a provider has a
    display name and a table of named operations, zero-argument callables
    the menu runs by label.

    The table is a Python dict, so it is modelled as a list of label and
    callable pairs with distinct labels, in insertion order; registering a
    label again replaces its callable in place. What a callable does when it
    is run is code outside this module: `Run` takes it as a parameter.
 */
module Provider {
  import opened Outcome
  import Text
  import Sorting

  /** The second argument of `register_operation`: a callable, or some other
      object that `callable()` rejects. */
  datatype Func<F> = Callable(call: F) | NotCallable

  /** A provider: its stripped name and its operations table. */
  datatype Provider<F> = Provider(name: string, ops: seq<(string, F)>)

  /** The labels of a table, in insertion order. */
  function Labels<F>(ops: seq<(string, F)>): (ls: seq<string>)
    ensures |ls| == |ops|
    ensures forall i | 0 <= i < |ops| :: ls[i] == ops[i].0
  {
    if ops == [] then [] else [ops[0].0] + Labels(ops[1..])
  }

  /** No label occurs twice, as in a dict. */
  predicate Distinct<F>(ops: seq<(string, F)>) {
    forall i, j | 0 <= i < j < |ops| :: ops[i].0 != ops[j].0
  }

  /** `label in self.operations`. */
  predicate Has<F>(p: Provider<F>, op: string) {
    exists i | 0 <= i < |p.ops| :: p.ops[i].0 == op
  }

  /** `self.operations[label]`, or nothing when the label is absent. */
  function Lookup<F>(ops: seq<(string, F)>, op: string): (r: Option<F>)
    ensures r.None? <==> forall i | 0 <= i < |ops| :: ops[i].0 != op
    ensures r.Some? ==> exists i | 0 <= i < |ops| :: ops[i] == (op, r.value)
  {
    if ops == [] then None
    else if ops[0].0 == op then Some(ops[0].1)
    else
      var r := Lookup(ops[1..], op);
      assert r.Some? ==> exists i | 0 <= i < |ops| :: ops[i] == (op, r.value) by {
        if r.Some? {
          var j :| 0 <= j < |ops[1..]| && ops[1..][j] == (op, r.value);
          assert ops[j + 1] == (op, r.value);
        }
      }
      r
  }

  /** `Provider(name)`: a blank name is a ValueError; otherwise the name is
      kept stripped and the table starts empty. */
  function New<F>(name: string): (r: Result<Provider<F>>)
    ensures r.Err? <==> Text.IsBlank(name)
    ensures r.Err? ==> r.error == ValueError
    ensures r.Ok? ==> r.value.name == Text.Strip(name) && r.value.name != [] && r.value.ops == []
  {
    if Text.Strip(name) == [] then Err(ValueError) else Ok(Provider(Text.Strip(name), []))
  }

  /** Stores `f` under `op` in a table: in place if the label is there,
      at the end otherwise. */
  function Store<F>(ops: seq<(string, F)>, op: string, f: F): (r: seq<(string, F)>)
    ensures |r| == |ops| || |r| == |ops| + 1
    ensures Labels(r) == (if exists i | 0 <= i < |ops| :: ops[i].0 == op then Labels(ops) else Labels(ops) + [op])
  {
    if ops == [] then [(op, f)]
    else if ops[0].0 == op then [(op, f)] + ops[1..]
    else
      var rest := Store(ops[1..], op, f);
      assert (exists i | 0 <= i < |ops| :: ops[i].0 == op)
               <==> (exists i | 0 <= i < |ops[1..]| :: ops[1..][i].0 == op) by {
        if exists i | 0 <= i < |ops| :: ops[i].0 == op {
          var i :| 0 <= i < |ops| && ops[i].0 == op;
          assert ops[1..][i - 1] == ops[i];
        }
      }
      assert Labels(ops) == [ops[0].0] + Labels(ops[1..]);
      assert Labels([ops[0]] + rest) == [ops[0].0] + Labels(rest);
      [ops[0]] + rest
  }

  /** `register_operation(label, func)`: a blank label, then a non-callable
      `func`, is a ValueError that leaves the table as it was; otherwise the
      callable is stored under the stripped label. */
  function Register<F>(p: Provider<F>, op: string, func: Func<F>): (r: Result<Provider<F>>)
    ensures r.Err? <==> Text.IsBlank(op) || func.NotCallable?
    ensures r.Err? ==> r.error == ValueError
    ensures r.Ok? ==> r.value.name == p.name
  {
    if Text.Strip(op) == [] then Err(ValueError)
    else if func.NotCallable? then Err(ValueError)
    else Ok(Provider(p.name, Store(p.ops, Text.Strip(op), func.call)))
  }

  /** `list_operations()`: the labels in ascending order. */
  function ListOperations<F>(p: Provider<F>): (ls: seq<string>)
    ensures Sorting.StrictlySorted(ls)
    ensures forall y :: y in ls <==> Has(p, y)
  {
    var ls := Sorting.SortUnique(Labels(p.ops));
    assert forall y :: y in Labels(p.ops) <==> Has(p, y) by {
      forall y ensures y in Labels(p.ops) <==> Has(p, y) {
        if y in Labels(p.ops) {
          var i :| 0 <= i < |Labels(p.ops)| && Labels(p.ops)[i] == y;
          assert p.ops[i].0 == y;
        }
        if Has(p, y) {
          var i :| 0 <= i < |p.ops| && p.ops[i].0 == y;
          assert Labels(p.ops)[i] == y;
        }
      }
    }
    ls
  }

  /** `run(op_key)`: an unknown key is a KeyError and nothing is invoked;
      a known key gives back exactly what invoking its callable gives,
      result or exception. */
  function Run<F, V>(p: Provider<F>, key: string, invoke: F -> Result<V>): (r: Result<V>)
    ensures !Has(p, key) ==> r == Err(KeyError)
    ensures Has(p, key) ==> Lookup(p.ops, key).Some? && r == invoke(Lookup(p.ops, key).value)
  {
    match Lookup(p.ops, key)
    case None => Err(KeyError)
    case Some(f) => invoke(f)
  }

  /** After storing `f` under `op`, looking up `op` finds `f` and every other
      label finds what it found before. */
  lemma {:induction false} StoreLookup<F>(ops: seq<(string, F)>, op: string, f: F, k: string)
    ensures Lookup(Store(ops, op, f), k) == (if k == op then Some(f) else Lookup(ops, k))
    decreases |ops|
  {
    if ops != [] && ops[0].0 != op {
      StoreLookup(ops[1..], op, f, k);
      var r := Store(ops, op, f);
      assert r[0] == ops[0] && r[1..] == Store(ops[1..], op, f);
    } else if ops != [] {
      var r := Store(ops, op, f);
      assert r[1..] == ops[1..];
    }
  }

  /** Storing keeps the labels distinct. */
  lemma StoreDistinct<F>(ops: seq<(string, F)>, op: string, f: F)
    requires Distinct(ops)
    ensures Distinct(Store(ops, op, f))
  {
    var r := Store(ops, op, f);
    var ls := Labels(r);
    if !exists i | 0 <= i < |ops| :: ops[i].0 == op {
      forall i, j | 0 <= i < j < |r| ensures r[i].0 != r[j].0 {
        assert ls[i] == r[i].0 && ls[j] == r[j].0;
        if j == |ops| {
          assert ls[i] == Labels(ops)[i] == ops[i].0;
        } else {
          assert ls[i] == ops[i].0 && ls[j] == ops[j].0;
        }
      }
    } else {
      forall i, j | 0 <= i < j < |r| ensures r[i].0 != r[j].0 {
        assert ls[i] == r[i].0 && ls[j] == r[j].0;
        assert ls[i] == ops[i].0 && ls[j] == ops[j].0;
      }
    }
  }

  /** A successful registration makes the callable run under the stripped
      label and changes no other label's callable; the labels stay distinct. */
  lemma RegisterStores<F>(p: Provider<F>, op: string, f: F, k: string)
    requires Register(p, op, Callable(f)).Ok?
    ensures var q := Register(p, op, Callable(f)).value;
            Lookup(q.ops, k) == (if k == Text.Strip(op) then Some(f) else Lookup(p.ops, k))
    ensures Distinct(p.ops) ==> Distinct(Register(p, op, Callable(f)).value.ops)
  {
    StoreLookup(p.ops, Text.Strip(op), f, k);
    if Distinct(p.ops) {
      StoreDistinct(p.ops, Text.Strip(op), f);
    }
  }

  /** `has_operation` does not strip: after registering `op`, exactly the
      stripped label is new, so a padded label is present only if it was
      already registered as such. */
  lemma RegisterHas<F>(p: Provider<F>, op: string, f: F, k: string)
    requires Register(p, op, Callable(f)).Ok?
    ensures Has(Register(p, op, Callable(f)).value, k) <==> k == Text.Strip(op) || Has(p, k)
  {
    RegisterStores(p, op, f, k);
  }

  /** Running a label just registered invokes the callable registered. */
  lemma RegisterThenRun<F, V>(p: Provider<F>, op: string, f: F, invoke: F -> Result<V>)
    requires Register(p, op, Callable(f)).Ok?
    ensures Run(Register(p, op, Callable(f)).value, Text.Strip(op), invoke) == invoke(f)
  {
    RegisterStores(p, op, f, Text.Strip(op));
  }

  /** A new provider has no operations: its list is empty and every run is a
      KeyError. */
  lemma NewIsEmpty<F, V>(name: string, key: string, invoke: F -> Result<V>)
    requires New<F>(name).Ok?
    ensures ListOperations(New<F>(name).value) == []
    ensures Run(New<F>(name).value, key, invoke) == Err(KeyError)
  {
  }

  /** The list depends only on which labels are registered, not on the order
      of registration. */
  lemma ListOrderFree<F>(p: Provider<F>, a: string, f: F, b: string, g: F)
    requires Register(p, a, Callable(f)).Ok? && Register(p, b, Callable(g)).Ok?
    ensures var pa := Register(Register(p, a, Callable(f)).value, b, Callable(g));
            var pb := Register(Register(p, b, Callable(g)).value, a, Callable(f));
            pa.Ok? && pb.Ok? && ListOperations(pa.value) == ListOperations(pb.value)
  {
    var pa := Register(Register(p, a, Callable(f)).value, b, Callable(g)).value;
    var pb := Register(Register(p, b, Callable(g)).value, a, Callable(f)).value;
    forall y ensures Has(pa, y) <==> Has(pb, y) {
      RegisterHas(Register(p, a, Callable(f)).value, b, g, y);
      RegisterHas(p, a, f, y);
      RegisterHas(Register(p, b, Callable(g)).value, a, f, y);
      RegisterHas(p, b, g, y);
    }
    Sorting.StrictlySortedUnique(ListOperations(pa), ListOperations(pb));
  }
}
