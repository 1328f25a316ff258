/** What one ibswinfo execution says about a switch; a NaN reading is `None`. */
module Ibswinfo {
  import opened Wrappers

  datatype PowerSupply = PowerSupply(id: string, status: string, dcPower: string, fanStatus: string,
                                     powerW: Option<real>)

  datatype Fan = Fan(id: string, rpm: Option<real>)

  datatype Report = Report(
    partNumber: string, serialNumber: string, psid: string, firmwareVersion: string,
    uptime: real, powerSupplies: seq<PowerSupply>, temp: Option<real>, fanStatus: string, fans: seq<Fan>)

  const EMPTY_REPORT := Report("", "", "", "", 0.0, [], None, "", [])

  type PsuTable = map<string, PowerSupply>

  /** The records of a table, each under its own id. */
  function WithIds(psus: PsuTable): set<PowerSupply> {
    set id | id in psus :: psus[id].(id := id)
  }

  /** `list` holds every record of the table once, in some order: what ranging over a Go map gives. */
  ghost predicate Enumerates(list: seq<PowerSupply>, psus: PsuTable) {
    multiset(list) == multiset(WithIds(psus))
  }

  /** Ranges over the table in an arbitrary order. */
  method ListSupplies(psus: PsuTable) returns (list: seq<PowerSupply>)
    ensures Enumerates(list, psus)
  {
    list := [];
    var todo := psus;
    while todo != map[]
      invariant todo.Keys <= psus.Keys && forall id <- todo :: todo[id] == psus[id]
      invariant multiset(list) + multiset(WithIds(todo)) == multiset(WithIds(psus))
      decreases |todo|
    {
      var id :| id in todo;
      var rest := todo - {id};
      WithoutOne(todo, id);
      list := list + [todo[id].(id := id)];
      todo := rest;
    }
  }

  lemma WithoutOne(psus: PsuTable, id: string)
    requires id in psus
    ensures multiset(WithIds(psus)) == multiset{psus[id].(id := id)} + multiset(WithIds(psus - {id}))
    ensures |psus - {id}| < |psus|
  {
    var record := psus[id].(id := id);
    var rest := psus - {id};
    assert rest.Keys == psus.Keys - {id};
    assert |rest.Keys| < |psus.Keys|;
    assert record !in WithIds(rest);
    assert WithIds(psus) == {record} + WithIds(rest) by {
      forall p | p in WithIds(psus) ensures p in {record} + WithIds(rest) {
        var k :| k in psus && p == psus[k].(id := k);
        if k != id {
          assert k in rest && p == rest[k].(id := k);
        }
      }
    }
  }

  /** Equal reports but for the order of the power supplies. */
  ghost predicate SameReport(a: Report, b: Report) {
    a.(powerSupplies := []) == b.(powerSupplies := []) && multiset(a.powerSupplies) == multiset(b.powerSupplies)
  }
}
