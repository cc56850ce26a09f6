/** The wiring of the services over one set of shared objects (app/bootstrap/container.py), and
    the proof that their calls are the steps of the lifecycle. */
module Container {
  import opened Common
  import opened TransactionRepository
  import opened Audit
  import opened Callbacks
  import opened Payments
  import opened Lifecycle
  import Approvals
  import CallbackRoutes
  import Replay

  class AppContainer {
    const settings: Configuration
    const paymentService: PaymentService
    const callbackRoute: CallbackRoutes.CallbackRoute
    ghost var executions: seq<Execution>
    ghost var applied: seq<Applied>

    /** The services share the transaction repository, the audit log and the metrics. */
    ghost predicate Wired() {
      && paymentService.settings == settings.payments && callbackRoute.settings == settings.routes
      && callbackRoute.handler.repository == paymentService.repository
      && callbackRoute.handler.auditLog == paymentService.auditLog
      && callbackRoute.handler.metrics == paymentService.metrics
      && paymentService.approvals.auditLog == paymentService.auditLog
      && paymentService.approvals.config == settings.payments.approvals
    }

    ghost function State(): World
      reads this, paymentService.provider, paymentService.repository, paymentService.auditLog
      reads paymentService.approvals.repository, paymentService.metrics, callbackRoute.replay
    {
      World(paymentService.State(), executions, applied, callbackRoute.replay.seen)
    }

    ghost predicate Valid()
      reads this, paymentService.provider, paymentService.repository, paymentService.auditLog
      reads paymentService.approvals.repository, paymentService.metrics, callbackRoute.replay
    {
      Wired() && Invariant(settings, State())
    }

    constructor (settings: Configuration)
      ensures Valid() && this.settings == settings && State() == START
      ensures fresh(paymentService.provider) && fresh(paymentService.repository) && fresh(paymentService.auditLog)
      ensures fresh(paymentService.approvals.repository) && fresh(paymentService.metrics) && fresh(callbackRoute.replay)
    {
      var repository := new InMemoryTransactionRepository();
      var auditLog := new AuditLog();
      var metrics := new Metrics();
      var provider := new PaymentProvider();
      var approvalRepository := new Approvals.InMemoryApprovalRepository();
      var approvalService := new Approvals.ApprovalService(approvalRepository, auditLog, settings.payments.approvals);
      var service := new PaymentService(settings.payments, provider, repository, auditLog, approvalService, metrics);
      var handler := new StkCallbackHandler(repository, auditLog, metrics);
      var replay := new Replay.InMemoryReplayProtection();
      this.settings, this.paymentService := settings, service;
      this.callbackRoute := new CallbackRoutes.CallbackRoute(settings.routes, replay, handler);
      this.executions, this.applied := [], [];
      StartIsRegular(settings);
    }

    /** One call from outside: the shared objects make exactly the step of the state machine. */
    method Handle(e: Event)
      requires Valid() && Admissible(State(), e)
      modifies this, paymentService.provider, paymentService.repository, paymentService.auditLog
      modifies paymentService.approvals.repository, paymentService.metrics, callbackRoute.replay
      ensures Valid()
      ensures State() == Step(settings, old(State()), e)
    {
      ghost var next := Step(settings, State(), e);
      StepKeeps(settings, State(), e);
      Dispatch(e);
      executions, applied := next.executions, next.applied;
    }

    /** The call itself: the books and the replay table become those of the step. */
    method Dispatch(e: Event)
      requires Wired() && Approvals.WellFormed(paymentService.approvals.repository.approvals)
      modifies paymentService.provider, paymentService.repository, paymentService.auditLog
      modifies paymentService.approvals.repository, paymentService.metrics, callbackRoute.replay
      ensures paymentService.State() == Step(settings, old(State()), e).books
      ensures callbackRoute.replay.seen == Step(settings, old(State()), e).seen
    {
      if e.CallbackEvent? {
        var response := callbackRoute.HandleStkCallback(e.payload, e.settledAt, e.arrivedAt);
      } else if e.PushEvent? || e.ExecuteEvent? {
        DispatchPayment(e);
      } else {
        DispatchReview(e);
      }
    }

    method DispatchPayment(e: Event)
      requires e.PushEvent? || e.ExecuteEvent?
      requires Wired() && Approvals.WellFormed(paymentService.approvals.repository.approvals)
      modifies paymentService.provider, paymentService.repository, paymentService.auditLog
      modifies paymentService.approvals.repository, paymentService.metrics
      ensures paymentService.State() == Step(settings, old(State()), e).books
      ensures callbackRoute.replay.seen == Step(settings, old(State()), e).seen
    {
      if e.PushEvent? {
        var response := paymentService.InitiateStkPush(e.push, e.answer, e.newId, e.newApprovalId, e.clock);
      } else {
        var response := paymentService.ExecuteApprovedPayment(e.approvalId, e.operator, e.at, e.answer, e.newId);
      }
    }

    method DispatchReview(e: Event)
      requires e.ApproveEvent? || e.RejectEvent? || e.ExpireEvent?
      requires Wired() && Approvals.WellFormed(paymentService.approvals.repository.approvals)
      modifies paymentService.auditLog, paymentService.approvals.repository
      ensures paymentService.State() == Step(settings, old(State()), e).books
      ensures callbackRoute.replay.seen == Step(settings, old(State()), e).seen
    {
      if e.ApproveEvent? {
        var response := paymentService.approvals.ApproveRequest(e.approvalId, e.operator, e.clock);
      } else if e.RejectEvent? {
        var response := paymentService.approvals.RejectRequest(e.approvalId, e.clock);
      } else {
        var count := paymentService.approvals.ExpireStaleApprovals(e.clock);
      }
    }
  }
}
