/** The two tables of the permission migration, and that they meet the conditions of its theorems. */
module PermissionUpdates {
  import opened Wrappers
  import opened PermissionCodes

  const REDUNDANT := [
    Merge("customer:delete", "customer:delete:own"),
    Merge("customer:update", "customer:edit:own"),
    Merge("opportunity:delete", "opportunity:delete:own"),
    Merge("opportunity:update", "opportunity:edit:own"),
    Merge("opportunity:stage", "opportunity:stage:view"),
    Merge("finance:view_receivables", "finance:receivables:view")]

  const LEAD := [
    Update("lead:create", "lead:create", "创建线索", "lead", "create", None),
    Update("lead:view_own", "lead:view:own", "查看自己的线索", "lead", "view", Some("own")),
    Update("lead:view_all", "lead:view:all", "查看所有线索", "lead", "view", Some("all")),
    Update("lead:edit_own", "lead:edit:own", "编辑自己的线索", "lead", "edit", Some("own")),
    Update("lead:edit_all", "lead:edit:all", "编辑所有线索", "lead", "edit", Some("all")),
    Update("lead:delete_own", "lead:delete:own", "删除自己的线索", "lead", "delete", Some("own")),
    Update("lead:assign", "lead:assign", "分配线索", "lead", "assign", None),
    Update("lead:claim", "lead:claim", "领取线索", "lead", "claim", None),
    Update("lead:convert", "lead:convert", "转化线索", "lead", "convert", None),
    Update("lead:return_to_pool", "lead:return", "退回线索到公海", "lead", "return", None),
    Update("lead:import", "lead:import", "导入线索", "lead", "import", None),
    Update("lead:follow_up:create", "lead:follow_up:create", "创建线索跟进", "lead", "follow_up_create", None)]

  const CUSTOMER := [
    Update("customer:create", "customer:create", "创建客户", "customer", "create", None),
    Update("customer:view:own", "customer:view:own", "查看自己的客户", "customer", "view", Some("own")),
    Update("customer:view:all", "customer:view:all", "查看所有客户", "customer", "view", Some("all")),
    Update("customer:edit_own", "customer:edit:own", "编辑自己的客户", "customer", "edit", Some("own")),
    Update("customer:edit_all", "customer:edit:all", "编辑所有客户", "customer", "edit", Some("all")),
    Update("customer:delete_own", "customer:delete:own", "删除自己的客户", "customer", "delete", Some("own")),
    Update("customer:assign", "customer:assign", "分配客户", "customer", "assign", None),
    Update("customer:claim", "customer:claim", "领取客户", "customer", "claim", None),
    Update("customer:return_to_pool", "customer:return", "退回客户到公海", "customer", "return", None),
    Update("customer:contact:create", "customer:contact:create", "创建客户联系人", "customer", "contact_create", None),
    Update("customer:contact:edit", "customer:contact:edit", "编辑客户联系人", "customer", "contact_edit", None),
    Update("customer:contact:delete", "customer:contact:delete", "删除客户联系人", "customer", "contact_delete", None),
    Update("customer:follow_up:create", "customer:follow_up:create", "创建客户跟进", "customer", "follow_up_create", None),
    Update("customer:follow_up:edit", "customer:follow_up:edit", "编辑客户跟进", "customer", "follow_up_edit", None),
    Update("customer:follow_up:delete", "customer:follow_up:delete", "删除客户跟进", "customer", "follow_up_delete", None)]

  const OPPORTUNITY := [
    Update("opportunity:create", "opportunity:create", "创建商机", "opportunity", "create", None),
    Update("opportunity:view:own", "opportunity:view:own", "查看自己的商机", "opportunity", "view", Some("own")),
    Update("opportunity:view:all", "opportunity:view:all", "查看所有商机", "opportunity", "view", Some("all")),
    Update("opportunity:edit_own", "opportunity:edit:own", "编辑自己的商机", "opportunity", "edit", Some("own")),
    Update("opportunity:edit_all", "opportunity:edit:all", "编辑所有商机", "opportunity", "edit", Some("all")),
    Update("opportunity:delete_own", "opportunity:delete:own", "删除自己的商机", "opportunity", "delete", Some("own")),
    Update("opportunity:assign", "opportunity:assign", "分配商机", "opportunity", "assign", None),
    Update("opportunity:win", "opportunity:win", "标记商机赢单", "opportunity", "win", None),
    Update("opportunity:lose", "opportunity:lose", "标记商机输单", "opportunity", "lose", None),
    Update("opportunity:stage:create", "opportunity:stage:create", "创建商机阶段", "opportunity", "stage_create", None),
    Update("opportunity:stage:update", "opportunity:stage:edit", "编辑商机阶段", "opportunity", "stage_edit", None),
    Update("opportunity:stage:delete", "opportunity:stage:delete", "删除商机阶段", "opportunity", "stage_delete", None),
    Update("opportunity:stage:manage", "opportunity:stage:manage", "管理商机阶段", "opportunity", "stage_manage", None),
    Update("opportunity:analytics:view", "opportunity:analytics:view", "查看商机分析", "opportunity", "analytics_view", None)]

  const CONTRACT := [
    Update("contract:create", "contract:create", "创建合同", "contract", "create", None),
    Update("contract:view_own", "contract:view:own", "查看自己的合同", "contract", "view", Some("own")),
    Update("contract:view_all", "contract:view:all", "查看所有合同", "contract", "view", Some("all")),
    Update("contract:edit_own", "contract:edit:own", "编辑自己的合同", "contract", "edit", Some("own")),
    Update("contract:edit_all", "contract:edit:all", "编辑所有合同", "contract", "edit", Some("all")),
    Update("contract:delete_own", "contract:delete:own", "删除自己的合同", "contract", "delete", Some("own")),
    Update("contract:approve_own", "contract:approve:own", "审批自己创建的合同", "contract", "approve", Some("own")),
    Update("contract:approve_all", "contract:approve:all", "审批所有合同", "contract", "approve", Some("all")),
    Update("contract:submit_approval", "contract:submit", "提交合同审批", "contract", "submit", None),
    Update("contract:cancel_approval", "contract:cancel", "撤回合同审批", "contract", "cancel", None)]

  const PAYMENT := [
    Update("payment:plan:create", "payment:plan:create", "创建回款计划", "payment", "plan_create", None),
    Update("payment:plan:edit", "payment:plan:edit", "编辑回款计划", "payment", "plan_edit", None),
    Update("payment:plan:delete", "payment:plan:delete", "删除回款计划", "payment", "plan_delete", None),
    Update("payment:plan:view_own", "payment:plan:view:own", "查看自己的回款计划", "payment", "plan_view", Some("own")),
    Update("payment:plan:view_all", "payment:plan:view:all", "查看所有回款计划", "payment", "plan_view", Some("all")),
    Update("payment:view_own", "payment:view:own", "查看自己的回款", "payment", "view", Some("own")),
    Update("payment:view_all", "payment:view:all", "查看所有回款", "payment", "view", Some("all")),
    Update("payment:register", "payment:register", "登记回款", "payment", "register", None),
    Update("payment:confirm", "payment:confirm", "确认回款入账", "payment", "confirm", None)]

  const INVOICE := [
    Update("invoice:create", "invoice:create", "创建发票申请", "invoice", "create", None),
    Update("invoice:view_own", "invoice:view:own", "查看自己的发票", "invoice", "view", Some("own")),
    Update("invoice:view_all", "invoice:view:all", "查看所有发票", "invoice", "view", Some("all")),
    Update("invoice:approve", "invoice:approve", "审批发票申请", "invoice", "approve", None),
    Update("invoice:mark_issued", "invoice:issue", "标记发票已开票", "invoice", "issue", None)]

  const FINANCE := [
    Update("finance:receivables_view", "finance:receivables:view", "查看应收账款", "finance", "receivables_view", None),
    Update("finance:reports_view", "finance:reports:view", "查看财务报表", "finance", "reports_view", None),
    Update("finance:audit_logs", "finance:audit:view", "查看财务审计日志", "finance", "audit_view", None)]

  const SYSTEM := [
    Update("user:manage", "user:manage", "管理用户", "user", "manage", None),
    Update("role:manage", "role:manage", "管理角色", "role", "manage", None),
    Update("permission:manage", "permission:manage", "管理权限", "permission", "manage", None),
    Update("system:config", "system:config", "系统配置", "system", "config", None),
    Update("ai:manage", "ai:manage", "AI 配置管理", "ai", "manage", None),
    Update("ai:read", "ai:view", "AI 配置查看", "ai", "view", None),
    Update("approval:flow:create", "approval:flow:create", "创建审批流程", "approval", "flow_create", None),
    Update("approval:flow:update", "approval:flow:edit", "编辑审批流程", "approval", "flow_edit", None),
    Update("statistics:view", "statistics:view", "查看统计数据", "statistics", "view", None),
    Update("report:view", "report:view:own", "查看报表", "report", "view", Some("own")),
    Update("report:view:team", "report:view:team", "查看团队报表", "report", "view", Some("team"))]

  const PROCUREMENT := [
    Update("procurement_method:view", "procurement_method:view", "查看采购方式", "procurement_method", "view", None),
    Update("procurement_method:create", "procurement_method:create", "创建采购方式", "procurement_method", "create", None),
    Update("procurement_method:update", "procurement_method:edit", "编辑采购方式", "procurement_method", "edit", None),
    Update("procurement_method:delete", "procurement_method:delete", "删除采购方式", "procurement_method", "delete", None),
    Update("procurement_stage:view", "procurement_stage:view", "查看阶段模板", "procurement_stage", "view", None),
    Update("procurement_stage:create", "procurement_stage:create", "创建阶段模板", "procurement_stage", "create", None),
    Update("procurement_stage:update", "procurement_stage:edit", "编辑阶段模板", "procurement_stage", "edit", None),
    Update("procurement_stage:delete", "procurement_stage:delete", "删除阶段模板", "procurement_stage", "delete", None),
    Update("procurement:admin:assess", "procurement:admin:assess", "采购管理-影响评估", "procurement", "admin_assess", None),
    Update("procurement:admin:migrate", "procurement:admin:migrate", "采购管理-批量迁移", "procurement", "admin_migrate", None),
    Update("procurement:admin:rollback", "procurement:admin:rollback", "采购管理-版本回滚", "procurement", "admin_rollback", None)]

  const UPDATES := LEAD + CUSTOMER + OPPORTUNITY + CONTRACT + PAYMENT + INVOICE + FINANCE + SYSTEM + PROCUREMENT

  // ----- Telling the codes apart -----

  function FromEnd(s: string, k: nat): int {
    if k < |s| then s[|s| - 1 - k] as int else 0
  }

  /**
   * Four letters of a code, as one number in base 128. Comparing the codes of the tables pairwise
   * takes thousands of comparisons of texts; a number per code takes one evaluation each. No three
   * positions and the length tell the codes of different rows apart. Of the sets of four that do,
   * counted from the end because most codes start alike, this one comes first. Nothing depends on
   * the choice: two texts with different numbers differ, and that is all that is used.
   */
  function Letters(s: string): int {
    ((FromEnd(s, 0) * 128 + FromEnd(s, 3)) * 128 + FromEnd(s, 7)) * 128 + FromEnd(s, 12)
  }

  /**
   * The row of the table a code belongs to, found by its length and four letters; redundant codes
   * come behind the table, all other texts are -1 or somebody else's row.
   */
  function RowOf(s: string): int {
    var letters := Letters(s);
    match |s|
    case 7 =>
      match letters {
        case 211582976 => 73 case 251494400 => 73
        case _ => -1
      }
    case 9 =>
      match letters {
        case 213628032 => 72
        case _ => -1
      }
    case 10 =>
      match letters {
        case 230371456 => 7
        case _ => -1
      }
    case 11 =>
      match letters {
        case 213479936 => 0 case 232583680 => 6 case 232600064 => 9 case 245117440 => 10
        case 213629184 => 68 case 213627520 => 69 case 251508608 => 77
        case _ => -1
      }
    case 12 =>
      match letters {
        case 245210368 => 8
        case _ => -1
      }
    case 13 =>
      match letters {
        case 232258412 => 1 case 231652204 => 1 case 228064108 => 2 case 227457900 => 2
        case 232256236 => 3 case 231650028 => 3 case 228061932 => 4 case 227455724 => 4
        case 213709289 => 64 case 217822963 => 71
        case _ => -1
      }
    case 14 =>
      match letters {
        case 230372085 => 19 case 213480174 => 60
        case _ => -1
      }
    case 15 =>
      match letters {
        case 232257121 => 5 case 231650913 => 5 case 213481843 => 12 case 232585587 => 18
        case 232601971 => 20 case 231651184 => 34 case 213482094 => 41 case 244890222 => 49
        case 228309614 => 50 case 230268281 => 59 case 213687670 => 63 case 251507937 => 76
        case 231652208 => 77 case 213596531 => 90 case 213465459 => 91
        case _ => -1
      }
    case 16 =>
      match letters {
        case 213595375 => 35 case 232258413 => 56 case 231652205 => 56 case 228064109 => 57
        case 227457901 => 57 case 240974189 => 58 case 232258415 => 61 case 231652207 => 61
        case 228064111 => 62 case 227457903 => 62 case 230503663 => 78
        case _ => -1
      }
    case 17 =>
      match letters {
        case 231652207 => 13 case 227457903 => 14 case 232256239 => 15 case 231650031 => 15
        case 228061935 => 16 case 227455727 => 16 case 232258418 => 42 case 231652210 => 42
        case 228064114 => 43 case 227457906 => 43 case 232256242 => 44 case 231650034 => 44
        case 228061938 => 45 case 227455730 => 45 case 244938341 => 52 case 213628777 => 70
        case 213727858 => 94
        case _ => -1
      }
    case 18 =>
      match letters {
        case 213482740 => 27 case 232586484 => 33 case 242954851 => 67 case 251507299 => 67
        case 244938358 => 75 case 213597428 => 92 case 213466356 => 93
        case _ => -1
      }
    case 19 =>
      match letters {
        case 228339685 => 9 case 232257125 => 17 case 231650917 => 17 case 232257123 => 46
        case 231650915 => 46 case 213481332 => 51 case 213596020 => 53 case 211613157 => 64
        case _ => -1
      }
    case 20 =>
      match letters {
        case 231652206 => 28 case 227457902 => 29 case 232256238 => 30 case 231650030 => 30
        case 228061934 => 31 case 227455726 => 31 case 232257908 => 47 case 231651700 => 47
        case 228063604 => 48 case 227457396 => 48 case 251509050 => 66 case 213482476 => 74
        case 213466092 => 75
        case _ => -1
      }
    case 21 =>
      match letters {
        case 213481580 => 11 case 244936890 => 22 case 232258416 => 54 case 231652208 => 54
        case 228064112 => 55 case 227457904 => 55
        case _ => -1
      }
    case 22 =>
      match letters {
        case 232257140 => 32 case 231650932 => 32 case 244936948 => 37 case 251506926 => 83
        case 244936942 => 85
        case _ => -1
      }
    case 23 =>
      match letters {
        case 228339685 => 20 case 213482095 => 21 case 213596783 => 23 case 244936687 => 25
        case 251507828 => 79 case 244937844 => 81
        case _ => -1
      }
    case 24 =>
      match letters {
        case 213480122 => 36 case 213463738 => 37 case 213594810 => 38 case 213627578 => 39
        case 228323554 => 49 case 228323566 => 50 case 251508325 => 65 case 213480159 => 84
        case 213463775 => 85 case 213594847 => 86 case 243070778 => 87 case 242791159 => 95
        case _ => -1
      }
    case 25 =>
      match letters {
        case 213481580 => 24 case 213596268 => 26 case 213480045 => 80 case 213463661 => 81
        case 213594733 => 82 case 213687649 => 88
        case _ => -1
      }
    case 26 =>
      match letters {
        case 251507950 => 40 case 226015588 => 89
        case _ => -1
      }
    case _ => -1
  }

  predicate IsRow(formerly: string, code: string, n: int) {
    RowOf(formerly) == n == RowOf(code)
  }

  /** The rows of the list are the rows of the table from `n` on. */
  ghost predicate Numbered(list: seq<Update>, n: nat) {
    forall i :: 0 <= i < |list| ==> IsRow(list[i].formerly, list[i].code, n + i)
  }

  // Each row, by computing it for both codes.

  lemma LeadCodesA()
    ensures IsRow("lead:create", "lead:create", 0)
    ensures IsRow("lead:view_own", "lead:view:own", 1)
    ensures IsRow("lead:view_all", "lead:view:all", 2)
    ensures IsRow("lead:edit_own", "lead:edit:own", 3)
  {
  }

  lemma LeadCodesB()
    ensures IsRow("lead:edit_all", "lead:edit:all", 4)
    ensures IsRow("lead:delete_own", "lead:delete:own", 5)
    ensures IsRow("lead:assign", "lead:assign", 6)
    ensures IsRow("lead:claim", "lead:claim", 7)
  {
  }

  lemma LeadCodesC()
    ensures IsRow("lead:convert", "lead:convert", 8)
    ensures IsRow("lead:return_to_pool", "lead:return", 9)
    ensures IsRow("lead:import", "lead:import", 10)
    ensures IsRow("lead:follow_up:create", "lead:follow_up:create", 11)
  {
  }

  lemma LeadRows()
    ensures |LEAD| == 12 && Numbered(LEAD, 0)
  {
    hide IsRow;
    LeadCodesA();
    LeadCodesB();
    LeadCodesC();
  }

  lemma CustomerCodesA()
    ensures IsRow("customer:create", "customer:create", 12)
    ensures IsRow("customer:view:own", "customer:view:own", 13)
    ensures IsRow("customer:view:all", "customer:view:all", 14)
    ensures IsRow("customer:edit_own", "customer:edit:own", 15)
  {
  }

  lemma CustomerCodesB()
    ensures IsRow("customer:edit_all", "customer:edit:all", 16)
    ensures IsRow("customer:delete_own", "customer:delete:own", 17)
    ensures IsRow("customer:assign", "customer:assign", 18)
    ensures IsRow("customer:claim", "customer:claim", 19)
  {
  }

  lemma CustomerCodesC()
    ensures IsRow("customer:return_to_pool", "customer:return", 20)
    ensures IsRow("customer:contact:create", "customer:contact:create", 21)
    ensures IsRow("customer:contact:edit", "customer:contact:edit", 22)
    ensures IsRow("customer:contact:delete", "customer:contact:delete", 23)
  {
  }

  lemma CustomerCodesD()
    ensures IsRow("customer:follow_up:create", "customer:follow_up:create", 24)
    ensures IsRow("customer:follow_up:edit", "customer:follow_up:edit", 25)
    ensures IsRow("customer:follow_up:delete", "customer:follow_up:delete", 26)
  {
  }

  lemma CustomerRows()
    ensures |CUSTOMER| == 15 && Numbered(CUSTOMER, 12)
  {
    hide IsRow;
    CustomerCodesA();
    CustomerCodesB();
    CustomerCodesC();
    CustomerCodesD();
  }

  lemma OpportunityCodesA()
    ensures IsRow("opportunity:create", "opportunity:create", 27)
    ensures IsRow("opportunity:view:own", "opportunity:view:own", 28)
    ensures IsRow("opportunity:view:all", "opportunity:view:all", 29)
    ensures IsRow("opportunity:edit_own", "opportunity:edit:own", 30)
  {
  }

  lemma OpportunityCodesB()
    ensures IsRow("opportunity:edit_all", "opportunity:edit:all", 31)
    ensures IsRow("opportunity:delete_own", "opportunity:delete:own", 32)
    ensures IsRow("opportunity:assign", "opportunity:assign", 33)
    ensures IsRow("opportunity:win", "opportunity:win", 34)
  {
  }

  lemma OpportunityCodesC()
    ensures IsRow("opportunity:lose", "opportunity:lose", 35)
    ensures IsRow("opportunity:stage:create", "opportunity:stage:create", 36)
    ensures IsRow("opportunity:stage:update", "opportunity:stage:edit", 37)
    ensures IsRow("opportunity:stage:delete", "opportunity:stage:delete", 38)
  {
  }

  lemma OpportunityCodesD()
    ensures IsRow("opportunity:stage:manage", "opportunity:stage:manage", 39)
    ensures IsRow("opportunity:analytics:view", "opportunity:analytics:view", 40)
  {
  }

  lemma OpportunityRows()
    ensures |OPPORTUNITY| == 14 && Numbered(OPPORTUNITY, 27)
  {
    hide IsRow;
    OpportunityCodesA();
    OpportunityCodesB();
    OpportunityCodesC();
    OpportunityCodesD();
  }

  lemma ContractCodesA()
    ensures IsRow("contract:create", "contract:create", 41)
    ensures IsRow("contract:view_own", "contract:view:own", 42)
    ensures IsRow("contract:view_all", "contract:view:all", 43)
    ensures IsRow("contract:edit_own", "contract:edit:own", 44)
  {
  }

  lemma ContractCodesB()
    ensures IsRow("contract:edit_all", "contract:edit:all", 45)
    ensures IsRow("contract:delete_own", "contract:delete:own", 46)
    ensures IsRow("contract:approve_own", "contract:approve:own", 47)
    ensures IsRow("contract:approve_all", "contract:approve:all", 48)
  {
  }

  lemma ContractCodesC()
    ensures IsRow("contract:submit_approval", "contract:submit", 49)
    ensures IsRow("contract:cancel_approval", "contract:cancel", 50)
  {
  }

  lemma ContractRows()
    ensures |CONTRACT| == 10 && Numbered(CONTRACT, 41)
  {
    hide IsRow;
    ContractCodesA();
    ContractCodesB();
    ContractCodesC();
  }

  lemma PaymentCodesA()
    ensures IsRow("payment:plan:create", "payment:plan:create", 51)
    ensures IsRow("payment:plan:edit", "payment:plan:edit", 52)
    ensures IsRow("payment:plan:delete", "payment:plan:delete", 53)
    ensures IsRow("payment:plan:view_own", "payment:plan:view:own", 54)
  {
  }

  lemma PaymentCodesB()
    ensures IsRow("payment:plan:view_all", "payment:plan:view:all", 55)
    ensures IsRow("payment:view_own", "payment:view:own", 56)
    ensures IsRow("payment:view_all", "payment:view:all", 57)
    ensures IsRow("payment:register", "payment:register", 58)
  {
  }

  lemma PaymentCodesC()
    ensures IsRow("payment:confirm", "payment:confirm", 59)
  {
  }

  lemma PaymentRows()
    ensures |PAYMENT| == 9 && Numbered(PAYMENT, 51)
  {
    hide IsRow;
    PaymentCodesA();
    PaymentCodesB();
    PaymentCodesC();
  }

  lemma InvoiceCodesA()
    ensures IsRow("invoice:create", "invoice:create", 60)
    ensures IsRow("invoice:view_own", "invoice:view:own", 61)
    ensures IsRow("invoice:view_all", "invoice:view:all", 62)
    ensures IsRow("invoice:approve", "invoice:approve", 63)
  {
  }

  lemma InvoiceCodesB()
    ensures IsRow("invoice:mark_issued", "invoice:issue", 64)
  {
  }

  lemma InvoiceRows()
    ensures |INVOICE| == 5 && Numbered(INVOICE, 60)
  {
    hide IsRow;
    InvoiceCodesA();
    InvoiceCodesB();
  }

  lemma FinanceCodesA()
    ensures IsRow("finance:receivables_view", "finance:receivables:view", 65)
    ensures IsRow("finance:reports_view", "finance:reports:view", 66)
    ensures IsRow("finance:audit_logs", "finance:audit:view", 67)
  {
  }

  lemma FinanceRows()
    ensures |FINANCE| == 3 && Numbered(FINANCE, 65)
  {
    hide IsRow;
    FinanceCodesA();
  }

  lemma SystemCodesA()
    ensures IsRow("user:manage", "user:manage", 68)
    ensures IsRow("role:manage", "role:manage", 69)
    ensures IsRow("permission:manage", "permission:manage", 70)
    ensures IsRow("system:config", "system:config", 71)
  {
  }

  lemma SystemCodesB()
    ensures IsRow("ai:manage", "ai:manage", 72)
    ensures IsRow("ai:read", "ai:view", 73)
    ensures IsRow("approval:flow:create", "approval:flow:create", 74)
    ensures IsRow("approval:flow:update", "approval:flow:edit", 75)
  {
  }

  lemma SystemCodesC()
    ensures IsRow("statistics:view", "statistics:view", 76)
    ensures IsRow("report:view", "report:view:own", 77)
    ensures IsRow("report:view:team", "report:view:team", 78)
  {
  }

  lemma SystemRows()
    ensures |SYSTEM| == 11 && Numbered(SYSTEM, 68)
  {
    hide IsRow;
    SystemCodesA();
    SystemCodesB();
    SystemCodesC();
  }

  lemma ProcurementCodesA()
    ensures IsRow("procurement_method:view", "procurement_method:view", 79)
    ensures IsRow("procurement_method:create", "procurement_method:create", 80)
    ensures IsRow("procurement_method:update", "procurement_method:edit", 81)
    ensures IsRow("procurement_method:delete", "procurement_method:delete", 82)
  {
  }

  lemma ProcurementCodesB()
    ensures IsRow("procurement_stage:view", "procurement_stage:view", 83)
    ensures IsRow("procurement_stage:create", "procurement_stage:create", 84)
    ensures IsRow("procurement_stage:update", "procurement_stage:edit", 85)
    ensures IsRow("procurement_stage:delete", "procurement_stage:delete", 86)
  {
  }

  lemma ProcurementCodesC()
    ensures IsRow("procurement:admin:assess", "procurement:admin:assess", 87)
    ensures IsRow("procurement:admin:migrate", "procurement:admin:migrate", 88)
    ensures IsRow("procurement:admin:rollback", "procurement:admin:rollback", 89)
  {
  }

  lemma ProcurementRows()
    ensures |PROCUREMENT| == 11 && Numbered(PROCUREMENT, 79)
  {
    hide IsRow;
    ProcurementCodesA();
    ProcurementCodesB();
    ProcurementCodesC();
  }

  lemma RedundantCodes()
    ensures IsRow("customer:delete", "customer:delete", 90)
    ensures IsRow("customer:update", "customer:update", 91)
    ensures IsRow("opportunity:delete", "opportunity:delete", 92)
    ensures IsRow("opportunity:update", "opportunity:update", 93)
    ensures IsRow("opportunity:stage", "opportunity:stage", 94)
    ensures IsRow("finance:view_receivables", "finance:view_receivables", 95)
  {
  }

  lemma TargetCodesA()
    ensures RowOf("customer:delete:own") < 90
    ensures RowOf("customer:edit:own") < 90
    ensures RowOf("opportunity:delete:own") < 90
  {
  }

  lemma TargetCodesB()
    ensures RowOf("opportunity:edit:own") < 90
    ensures RowOf("opportunity:stage:view") < 90
    ensures RowOf("finance:receivables:view") < 90
  {
  }

  // ----- The conditions hold -----

  lemma NumberedAppend(a: seq<Update>, b: seq<Update>, n: nat)
    requires Numbered(a, n) && Numbered(b, n + |a|)
    ensures Numbered(a + b, n)
  {
    hide IsRow;
  }

  lemma UpdatesAreNumbered()
    ensures |UPDATES| == 90 && Numbered(UPDATES, 0)
  {
    hide Numbered;
    LeadRows();
    CustomerRows();
    NumberedAppend(LEAD, CUSTOMER, 0);
    OpportunityRows();
    NumberedAppend(LEAD + CUSTOMER, OPPORTUNITY, 0);
    ContractRows();
    NumberedAppend(LEAD + CUSTOMER + OPPORTUNITY, CONTRACT, 0);
    PaymentRows();
    NumberedAppend(LEAD + CUSTOMER + OPPORTUNITY + CONTRACT, PAYMENT, 0);
    InvoiceRows();
    NumberedAppend(LEAD + CUSTOMER + OPPORTUNITY + CONTRACT + PAYMENT, INVOICE, 0);
    FinanceRows();
    NumberedAppend(LEAD + CUSTOMER + OPPORTUNITY + CONTRACT + PAYMENT + INVOICE, FINANCE, 0);
    SystemRows();
    NumberedAppend(LEAD + CUSTOMER + OPPORTUNITY + CONTRACT + PAYMENT + INVOICE + FINANCE, SYSTEM, 0);
    ProcurementRows();
    NumberedAppend(LEAD + CUSTOMER + OPPORTUNITY + CONTRACT + PAYMENT + INVOICE + FINANCE + SYSTEM, PROCUREMENT, 0);
  }

  /** The redundant codes are distinct, and none is a target. */
  lemma RedundantFits()
    ensures MergesFit(REDUNDANT)
  {
    hide RowOf;
    RedundantCodes();
    TargetCodesA();
    TargetCodesB();
    assert forall i :: 0 <= i < |REDUNDANT| ==>
      RowOf(REDUNDANT[i].formerly) == 90 + i && RowOf(REDUNDANT[i].target) < 90;
  }

  /** Both codes of a row belong to that row, so codes of different rows differ. */
  lemma UpdatesFitTheirConditions()
    ensures UpdatesFit(UPDATES) && CodesDiffer(UPDATES)
    ensures forall i :: 0 <= i < |UPDATES| ==> !Deleted(REDUNDANT, UPDATES[i].code)
  {
    hide RowOf;
    UpdatesAreNumbered();
    RedundantCodes();
    forall i, j | 0 <= i < |UPDATES| && 0 <= j < |REDUNDANT| ensures UPDATES[i].code != REDUNDANT[j].formerly {
      assert RowOf(REDUNDANT[j].formerly) == 90 + j;
    }
  }

  /** The script, run twice with its own tables, does what it does when run once. */
  lemma ScriptTwiceIsOnce(db: Db)
    requires Unique(db.permissions) && Steps(db, REDUNDANT, UPDATES).Done?
    ensures var once := Steps(db, REDUNDANT, UPDATES).db;
      Unique(once.permissions) && Steps(once, REDUNDANT, UPDATES) == Done(once)
  {
    hide Steps, MergesFit, UpdatesFit, Deleted;
    RedundantFits();
    UpdatesFitTheirConditions();
    MigratingTwiceIsOnce(db, REDUNDANT, UPDATES);
  }

  /** When the script with its own tables raises, and what a role holds after it. */
  lemma ScriptHolds(db: Db, role: int, code: string)
    requires Unique(db.permissions)
    ensures Steps(db, REDUNDANT, UPDATES).Raised? <==> SomeClash(Step1(db, REDUNDANT), UPDATES)
    ensures Steps(db, REDUNDANT, UPDATES).Done? ==>
      Held(Steps(db, REDUNDANT, UPDATES).db, role, code) == HoldsAfter(db, REDUNDANT, UPDATES, role, code)
  {
    hide MergesFit, UpdatesFit, CodesDiffer, Deleted, Unique, SomeClash, Steps, Step1, HoldsAfter, Held;
    RedundantFits();
    UpdatesFitTheirConditions();
    HeldAfterBoth(db, REDUNDANT, UPDATES, role, code);
  }
}
