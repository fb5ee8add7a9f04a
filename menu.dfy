/** GET /menu: the dish records pivoted from the attribute table. */
module Menu {
  import opened Wrappers
  import opened Sorting
  import opened Eav

  /** One menu record: `name` and `price` are NULL when the dish has no such row. */
  datatype MenuItem = MenuItem(dishId: int, name: Option<string>, price: Option<string>)

  function MenuItemOf(rows: seq<Row>, id: int): MenuItem {
    var rs := EntityRows(rows, "dish", id);
    MenuItem(id, MaxOf(rs, "name"), MaxOf(rs, "price"))
  }

  /**
    `SELECT ent_instance_id, MAX(CASE ... 'name'), MAX(CASE ... 'price')
     WHERE ent_name = 'dish' GROUP BY ent_instance_id`:
    one record per dish instance, in ascending id order.
  */
  function GetMenu(rows: seq<Row>): (menu: seq<MenuItem>)
    ensures forall i, j :: 0 <= i < j < |menu| ==> menu[i].dishId < menu[j].dishId
    ensures forall id :: id in InstanceIds(rows, "dish") <==> exists i :: 0 <= i < |menu| && menu[i].dishId == id
    ensures forall i :: 0 <= i < |menu| ==>
              && IsMax(EntityRows(rows, "dish", menu[i].dishId), "name", menu[i].name)
              && IsMax(EntityRows(rows, "dish", menu[i].dishId), "price", menu[i].price)
  {
    var ids := TypeGroups(rows, "dish");
    var menu := seq(|ids|, i requires 0 <= i < |ids| => MenuItemOf(rows, ids[i]));
    assert forall i :: 0 <= i < |menu| ==> menu[i].dishId == ids[i];
    forall id | id in ids ensures exists i :: 0 <= i < |menu| && menu[i].dishId == id {
      var i :| 0 <= i < |ids| && ids[i] == id;
      assert menu[i].dishId == id;
    }
    menu
  }
}
