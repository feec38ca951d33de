/** The admin dashboard component (app/admin/page.tsx): its state (the open
    tab, the mobile sidebar flag, the orders table, the support chat and the
    message being typed) and the three handlers that change it: setting an
    order's status, sending a chat message, and switching tabs. The clock
    readings a sent message takes are parameters. */
module AdminPage {
  import opened Common

  /** `TabType`. */
  datatype Tab = DashboardTab | PlansTab | OrdersTab | SupportTab | AdminsTab

  /** `Order["status"]`: an order is always in one of these three states. */
  datatype OrderStatus = Active | Pending | Cancelled

  datatype AdminOrder = AdminOrder(id: string, customer: string, plan: string, status: OrderStatus,
                                   amount: int, date: string)

  datatype ChatMessage = ChatMessage(id: string, user: string, message: string, timestamp: string, isAdmin: bool)

  /** The initial `orders`. */
  const InitialOrders: seq<AdminOrder> := [
    AdminOrder("1", "John Doe", "Pro VPS", Active, 35, "2024-01-15"),
    AdminOrder("2", "Jane Smith", "Starter RDP", Pending, 15, "2024-01-14"),
    AdminOrder("3", "Bob Johnson", "Enterprise", Active, 75, "2024-01-13")
  ]

  /** The initial `chatMessages`. */
  const InitialChat: seq<ChatMessage> := [
    ChatMessage("1", "John Doe", "Hi, I need help with my VPS setup", "10:30 AM", false),
    ChatMessage("2", "Admin", "Hello! I'd be happy to help you with that.", "10:32 AM", true)
  ]

  // ---------------------------------------------------------------------
  // Setting an order's status
  // ---------------------------------------------------------------------

  /** `orders.map(order => order.id === orderId ? { ...order, status } : order)`. */
  function WithStatus(orders: seq<AdminOrder>, orderId: string, status: OrderStatus): (r: seq<AdminOrder>)
    ensures |r| == |orders|
    ensures forall k :: 0 <= k < |r| ==> r[k].status == if orders[k].id == orderId then status else orders[k].status
    ensures forall k :: 0 <= k < |r| ==> r[k].(status := orders[k].status) == orders[k]
  {
    seq(|orders|, k requires 0 <= k < |orders| =>
      if orders[k].id == orderId then orders[k].(status := status) else orders[k])
  }

  /** An id no order has leaves the table as it was. */
  lemma WithStatusAbsent(orders: seq<AdminOrder>, orderId: string, status: OrderStatus)
    requires forall k :: 0 <= k < |orders| ==> orders[k].id != orderId
    ensures WithStatus(orders, orderId, status) == orders
  {
    var r := WithStatus(orders, orderId, status);
    assert forall k :: 0 <= k < |r| ==> r[k] == orders[k].(status := orders[k].status) == orders[k];
  }

  /** Setting the same status twice is setting it once. */
  lemma WithStatusIdempotent(orders: seq<AdminOrder>, orderId: string, status: OrderStatus)
    ensures WithStatus(WithStatus(orders, orderId, status), orderId, status) == WithStatus(orders, orderId, status)
  {
    var once := WithStatus(orders, orderId, status);
    var twice := WithStatus(once, orderId, status);
    forall k | 0 <= k < |once|
      ensures twice[k] == once[k]
    {
      assert once[k].id == orders[k].id by { assert once[k].(status := orders[k].status).id == once[k].id; }
      assert twice[k].(status := once[k].status) == once[k];
    }
  }

  /** Only the status of the orders with that id changes: the ids, and hence
      the order of the rows, stay the same. */
  lemma WithStatusKeepsRows(orders: seq<AdminOrder>, orderId: string, status: OrderStatus)
    ensures var r := WithStatus(orders, orderId, status);
      forall k :: 0 <= k < |r| ==>
        r[k].id == orders[k].id && r[k].amount == orders[k].amount && (orders[k].id != orderId ==> r[k] == orders[k])
  {
    var r := WithStatus(orders, orderId, status);
    forall k | 0 <= k < |r|
      ensures r[k].id == orders[k].id && r[k].amount == orders[k].amount
    {
      assert r[k].(status := orders[k].status) == orders[k];
    }
  }

  // ---------------------------------------------------------------------
  // Sending a message
  // ---------------------------------------------------------------------

  /** `newMessage.trim()` is truthy: the text is not all whitespace. */
  function ShouldSend(text: string): (send: bool)
    ensures send <==> !AllSpace(text)
  {
    TrimEmptyIff(text);
    Trim(text) != ""
  }

  /** The message `handleSendMessage` appends: the id is `Date.now()` in
      decimal, the text is as typed (not trimmed). */
  function AdminMessage(text: string, idClock: nat, timestamp: string): (m: ChatMessage)
    ensures m.user == "Admin" && m.isAdmin && m.message == text
    ensures m.id == DecimalText(idClock) && m.timestamp == timestamp
  {
    ChatMessage(DecimalText(idClock), "Admin", text, timestamp, true)
  }

  /** The component's state. */
  class AdminDashboard {
    var activeTab: Tab
    var isMobileSidebarOpen: bool
    var orders: seq<AdminOrder>
    var chatMessages: seq<ChatMessage>
    var newMessage: string

    constructor ()
      ensures activeTab == DashboardTab && !isMobileSidebarOpen
      ensures orders == InitialOrders && chatMessages == InitialChat && newMessage == ""
    {
      activeTab := DashboardTab;
      isMobileSidebarOpen := false;
      orders := InitialOrders;
      chatMessages := InitialChat;
      newMessage := "";
    }

    /** The change handler of the message input. */
    method SetNewMessage(text: string)
      modifies this`newMessage
      ensures newMessage == text
    {
      newMessage := text;
    }

    /** `updateOrderStatus`. */
    method UpdateOrderStatus(orderId: string, newStatus: OrderStatus)
      modifies this`orders
      ensures orders == WithStatus(old(orders), orderId, newStatus)
    {
      orders := WithStatus(orders, orderId, newStatus);
    }

    /** `handleSendMessage`: text that is empty or all whitespace is ignored:
        neither the chat nor the input changes. Otherwise exactly one message
        is appended and the input is cleared. */
    method HandleSendMessage(idClock: nat, timestamp: string)
      modifies this`chatMessages, this`newMessage
      ensures AllSpace(old(newMessage)) ==> chatMessages == old(chatMessages) && newMessage == old(newMessage)
      ensures !AllSpace(old(newMessage)) ==>
        chatMessages == old(chatMessages) + [AdminMessage(old(newMessage), idClock, timestamp)] && newMessage == ""
    {
      if ShouldSend(newMessage) {
        var message := AdminMessage(newMessage, idClock, timestamp);
        chatMessages := chatMessages + [message];
        newMessage := "";
      }
    }

    /** `handleTabChange`: the tab is shown and the mobile sidebar closes. */
    method HandleTabChange(tab: Tab)
      modifies this`activeTab, this`isMobileSidebarOpen
      ensures activeTab == tab && !isMobileSidebarOpen
    {
      activeTab := tab;
      isMobileSidebarOpen := false;
    }
  }
}
